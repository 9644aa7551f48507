/**
 * Admin\RuleSettingController: create, edit and delete rule settings. The
 * default setting can be neither edited nor deleted, and a setting some pool
 * uses cannot be deleted.
 */
module RuleSettingAdmin {
  import opened Wrappers
  import opened RuleSettings
  import RulesInput

  /** The form; None is a key absent, null, the empty string or not of the expected type. */
  datatype SettingRequest = SettingRequest(name: Option<string>, rules: Option<RulesInput.RulesRequest>)

  /** The keys the validator reports errors under (`name` twice: invalid, or already used). */
  datatype SettingField =
    | NameField
    | NameTaken
    | RulesField
    | RulesEntry(error: RulesInput.RulesError)

  const NameMaxLength: nat := 255

  const NoRules := RulesInput.RulesRequest(None, None, 0)

  /**
   * `unique:rule_settings,name[,except]`: some row other than `except`
   * already has this name.
   */
  predicate NameInUse(settings: map<int, RuleSetting>, name: string, except: Option<int>) {
    exists id :: id in settings && settings[id].name == name && Some(id) != except
  }

  /** The submitted rules, or the empty array when `rules` is missing. */
  function RulesOf(req: SettingRequest): RulesInput.RulesRequest {
    req.rules.GetOr(NoRules)
  }

  function RuleErrors(req: SettingRequest): (errs: set<SettingField>)
    ensures forall f :: f in errs ==> f.RulesEntry?
    ensures forall e :: RulesEntry(e) in errs <==> e in RulesInput.Errors(RulesOf(req), false)
  {
    set e | e in RulesInput.Errors(RulesOf(req), false) :: RulesEntry(e)
  }

  function NameErrors(req: SettingRequest, settings: map<int, RuleSetting>, except: Option<int>): (errs: set<SettingField>)
    ensures errs <= {NameField, NameTaken}
    ensures NameField in errs <==> !(req.name.Some? && req.name.value != "" && |req.name.value| <= NameMaxLength)
    ensures NameTaken in errs <==> req.name.Some? && req.name.value != "" && NameInUse(settings, req.name.value, except)
  {
    (if req.name.Some? && req.name.value != "" && |req.name.value| <= NameMaxLength then {} else {NameField})
    + (if req.name.Some? && req.name.value != "" && NameInUse(settings, req.name.value, except) then {NameTaken} else {})
  }

  /**
   * Every validation error of the form. `rules` is required, so a missing
   * or empty array fails on `rules` and on each required key inside it; the
   * `by_position` bounds are not checked here.
   */
  function Errors(req: SettingRequest, settings: map<int, RuleSetting>, except: Option<int>): (errs: set<SettingField>)
    ensures NameField in errs <==> !(req.name.Some? && req.name.value != "" && |req.name.value| <= NameMaxLength)
    ensures NameTaken in errs <==> req.name.Some? && req.name.value != "" && NameInUse(settings, req.name.value, except)
    ensures RulesField in errs <==> req.rules.None? || RulesInput.IsEmptyRequest(req.rules.value)
    ensures forall e :: RulesEntry(e) in errs <==> e in RulesInput.Errors(RulesOf(req), false)
  {
    NameErrors(req, settings, except)
    + (if req.rules.None? || RulesInput.IsEmptyRequest(req.rules.value) then {RulesField} else {})
    + RuleErrors(req)
  }

  /** A form without errors has a name and valid rules. */
  lemma AcceptedForm(req: SettingRequest, settings: map<int, RuleSetting>, except: Option<int>)
    requires Errors(req, settings, except) == {}
    ensures req.name.Some? && req.name.value != "" && |req.name.value| <= NameMaxLength
    ensures !NameInUse(settings, req.name.value, except)
    ensures req.rules.Some? && RulesInput.Valid(req.rules.value, false)
  {
    assert RulesField !in Errors(req, settings, except);
    assert forall e :: e in RulesInput.Errors(RulesOf(req), false) ==> RulesEntry(e) in Errors(req, settings, except);
  }

  /** Why a well-formed request is refused, and the key the error is reported under. */
  datatype Reason = DefaultProtected | InUse

  datatype AdminOutcome =
    | NotFound
    | Refused(key: string, reason: Reason)
    | Rejected(errors: set<SettingField>)
    | Done(id: int)

  /**
   * `store`: a valid form adds one custom, non-default setting under a fresh
   * id and touches no other row; an invalid one is rejected with all of its
   * errors and nothing changes.
   */
  method Store(req: SettingRequest, table: RuleSettingTable) returns (out: AdminOutcome)
    requires table.Valid()
    modifies table
    ensures table.Valid()
    ensures Errors(req, old(table.settings), None) != {} ==>
      out == Rejected(Errors(req, old(table.settings), None)) && table.settings == old(table.settings)
    ensures Errors(req, old(table.settings), None) == {} ==>
      && out.Done? && out.id !in old(table.settings)
      && table.settings == old(table.settings)[out.id := RulesInput.StoredSetting(req.name.value, req.rules.value)]
  {
    var errs := Errors(req, table.settings, None);
    if errs != {} {
      return Rejected(errs);
    }
    AcceptedForm(req, table.settings, None);
    var id := table.Create(RulesInput.StoredSetting(req.name.value, req.rules.value));
    out := Done(id);
  }

  /**
   * `update`: an unknown id is not found and the default setting is refused
   * under `update`, both before any validation. Otherwise a valid form
   * replaces only that row's name and rules; its legacy columns, flags and
   * every other row stay as they were.
   */
  method Update(id: int, req: SettingRequest, table: RuleSettingTable) returns (out: AdminOutcome)
    requires table.Valid()
    modifies table`settings
    ensures table.Valid()
    ensures id !in old(table.settings) ==> out == NotFound
    ensures id in old(table.settings) && old(table.settings)[id].isDefault ==> out == Refused("update", DefaultProtected)
    ensures id in old(table.settings) && !old(table.settings)[id].isDefault && Errors(req, old(table.settings), Some(id)) != {} ==>
      out == Rejected(Errors(req, old(table.settings), Some(id)))
    ensures id in old(table.settings) && !old(table.settings)[id].isDefault && Errors(req, old(table.settings), Some(id)) == {} ==>
      && out == Done(id)
      && table.settings == old(table.settings)[id := old(table.settings)[id].(name := req.name.value, rules := RulesInput.ToBlob(req.rules.value))]
    ensures !out.Done? ==> table.settings == old(table.settings)
  {
    if id !in table.settings {
      return NotFound;
    }
    var current := table.settings[id];
    if current.isDefault {
      return Refused("update", DefaultProtected);
    }
    var errs := Errors(req, table.settings, Some(id));
    if errs != {} {
      return Rejected(errs);
    }
    AcceptedForm(req, table.settings, Some(id));
    table.settings := table.settings[id := current.(name := req.name.value, rules := RulesInput.ToBlob(req.rules.value))];
    out := Done(id);
  }

  /**
   * `destroy`: the default setting and a setting that any pool uses
   * (`poolRuleIds` holds every pool's `rule_setting_id`) are refused under
   * `delete`; otherwise exactly that row is removed.
   */
  method Destroy(id: int, poolRuleIds: seq<int>, table: RuleSettingTable) returns (out: AdminOutcome)
    requires table.Valid()
    modifies table`settings
    ensures table.Valid()
    ensures id !in old(table.settings) ==> out == NotFound
    ensures id in old(table.settings) ==>
      out == (if old(table.settings)[id].isDefault then Refused("delete", DefaultProtected)
              else if id in poolRuleIds then Refused("delete", InUse)
              else Done(id))
    ensures table.settings == if out.Done? then old(table.settings) - {id} else old(table.settings)
  {
    if id !in table.settings {
      return NotFound;
    }
    if table.settings[id].isDefault {
      return Refused("delete", DefaultProtected);
    }
    if id in poolRuleIds {
      return Refused("delete", InUse);
    }
    table.settings := table.settings - {id};
    out := Done(id);
  }

  /**
   * Creating a setting and deleting it again, while no pool uses it, leaves
   * the table as it was.
   */
  method StoreThenDestroy(req: SettingRequest, poolRuleIds: seq<int>, table: RuleSettingTable)
    returns (created: AdminOutcome, removed: AdminOutcome)
    requires table.Valid() && Errors(req, table.settings, None) == {}
    requires forall i :: 0 <= i < |poolRuleIds| ==> poolRuleIds[i] in table.settings
    modifies table
    ensures created.Done? && removed == created
    ensures table.settings == old(table.settings)
  {
    created := Store(req, table);
    removed := Destroy(created.id, poolRuleIds, table);
    assert table.settings == old(table.settings) by {
      assert old(table.settings)[created.id := RulesInput.StoredSetting(req.name.value, req.rules.value)] - {created.id}
          == old(table.settings);
    }
  }

  /**
   * Pool creation does not check name uniqueness, so two settings may share
   * a name; each of them then fails the uniqueness rule when it is edited
   * under its own name.
   */
  lemma SharedNameBlocksEdit(settings: map<int, RuleSetting>, a: int, b: int, req: SettingRequest)
    requires a in settings && b in settings && a != b && settings[a].name == settings[b].name != ""
    requires req.name == Some(settings[a].name)
    ensures NameTaken in Errors(req, settings, Some(a)) && NameTaken in Errors(req, settings, Some(b))
  {
    assert NameInUse(settings, settings[a].name, Some(a)) by {
      assert settings[b].name == settings[a].name && Some(b) != Some(a);
    }
    assert NameInUse(settings, settings[a].name, Some(b)) by {
      assert settings[a].name == settings[a].name && Some(a) != Some(b);
    }
  }
}
