/**
 * The stored rule list (modern, e-mail based generation): rules keyed by a generated id,
 * with at most one rule per service, added, merged and deleted in place.
 */
module Storage {
  import opened Wrappers
  import opened ArrayOps

  /** `RouterRule`: which account (by e-mail) a service should use. */
  datatype RouterRule = RouterRule(id: string, serviceId: string, accountEmail: string, enabled: bool, labelText: Option<string>)

  /** `Omit<RouterRule, "id">`: a rule before it is given an id. */
  datatype NewRule = NewRule(serviceId: string, accountEmail: string, enabled: bool, labelText: Option<string>)

  /** `Partial<Omit<RouterRule, "id">>`: the fields an update supplies; `None` means not supplied. */
  datatype RuleUpdate = RuleUpdate(serviceId: Option<string>, accountEmail: Option<string>, enabled: Option<bool>, labelText: Option<string>)

  /** The two rejections, "edit the existing rule" on add and "choose another service" on update. */
  datatype StoreError = ServiceTakenOnAdd | ServiceTakenOnUpdate

  function ServiceIdOf(rule: RouterRule): string { rule.serviceId }

  function IdOf(rule: RouterRule): string { rule.id }

  /** At most one rule per service. */
  ghost predicate UniqueServices(rules: seq<RouterRule>)
  {
    DistinctBy(rules, ServiceIdOf)
  }

  /** No two rules share an id (ids come from `crypto.randomUUID`). */
  ghost predicate DistinctIds(rules: seq<RouterRule>)
  {
    DistinctBy(rules, IdOf)
  }

  /**
   * `hasRuleForService(serviceId, excludeRuleId)`: some rule is for `serviceId` and is not
   * the excluded one (with no exclusion, every rule counts).
   */
  function HasRuleForService(rules: seq<RouterRule>, serviceId: string, excludeRuleId: Option<string>): (b: bool)
    ensures b <==> exists j :: 0 <= j < |rules| && rules[j].serviceId == serviceId && Some(rules[j].id) != excludeRuleId
  {
    Any(rules, (r: RouterRule) => r.serviceId == serviceId && Some(r.id) != excludeRuleId)
  }

  /** `{ ...rule, id }`. */
  function WithId(rule: NewRule, id: string): (r: RouterRule)
    ensures r.id == id && r.serviceId == rule.serviceId && r.accountEmail == rule.accountEmail
    ensures r.enabled == rule.enabled && r.labelText == rule.labelText
  {
    RouterRule(id, rule.serviceId, rule.accountEmail, rule.enabled, rule.labelText)
  }

  /** `{ ...rule, ...updates }`: supplied fields win, the id and the other fields stay. */
  function Merge(rule: RouterRule, updates: RuleUpdate): (r: RouterRule)
    ensures r.id == rule.id
    ensures r.serviceId == (if updates.serviceId.Some? then updates.serviceId.value else rule.serviceId)
    ensures r.accountEmail == (if updates.accountEmail.Some? then updates.accountEmail.value else rule.accountEmail)
    ensures r.enabled == (if updates.enabled.Some? then updates.enabled.value else rule.enabled)
    ensures r.labelText == (if updates.labelText.Some? then updates.labelText else rule.labelText)
  {
    rule.(
      serviceId := match updates.serviceId case Some(s) => s case None => rule.serviceId,
      accountEmail := match updates.accountEmail case Some(e) => e case None => rule.accountEmail,
      enabled := match updates.enabled case Some(b) => b case None => rule.enabled,
      labelText := match updates.labelText case Some(l) => Some(l) case None => rule.labelText)
  }

  /**
   * `updateRule`'s guard: a supplied serviceId that is non-empty (JavaScript truthiness)
   * and already held by a rule with another id.
   */
  predicate UpdateRejected(rules: seq<RouterRule>, id: string, updates: RuleUpdate)
  {
    updates.serviceId.Some? && updates.serviceId.value != "" && HasRuleForService(rules, updates.serviceId.value, Some(id))
  }

  /** `rules.findIndex((r) => r.id === id)`. */
  function IndexOfId(rules: seq<RouterRule>, id: string): Option<nat>
  {
    FindIndex(rules, (r: RouterRule) => r.id == id)
  }

  /** The list after an accepted `updateRule`: the first rule with the id is merged, nothing else moves. */
  function Updated(rules: seq<RouterRule>, id: string, updates: RuleUpdate): (r: seq<RouterRule>)
    ensures |r| == |rules|
    ensures forall j :: 0 <= j < |rules| ==> r[j].id == rules[j].id
    ensures (forall j :: 0 <= j < |rules| ==> rules[j].id != id) ==> r == rules
    ensures forall k :: 0 <= k < |rules| && rules[k].id == id && (forall j :: 0 <= j < k ==> rules[j].id != id) ==>
      r == rules[k := Merge(rules[k], updates)]
  {
    match IndexOfId(rules, id)
    case None => rules
    case Some(k) => rules[k := Merge(rules[k], updates)]
  }

  /** `rules.filter((r) => r.id !== id)`. */
  function Deleted(rules: seq<RouterRule>, id: string): (r: seq<RouterRule>)
    ensures forall j :: 0 <= j < |r| ==> r[j] in rules && r[j].id != id
    ensures forall j :: 0 <= j < |rules| && rules[j].id != id ==> rules[j] in r
  {
    Filter(rules, (r: RouterRule) => r.id != id)
  }

  /** Deleting keeps the remaining rules in order: it distributes over concatenation and skips other ids. */
  lemma DeletedKeepsOrder(a: seq<RouterRule>, b: seq<RouterRule>, id: string)
    ensures Deleted(a + b, id) == Deleted(a, id) + Deleted(b, id)
    ensures (forall j :: 0 <= j < |a| ==> a[j].id != id) ==> Deleted(a, id) == a
    ensures (forall j :: 0 <= j < |a| ==> a[j].id == id) ==> Deleted(a, id) == []
  {
    var p := (r: RouterRule) => r.id != id;
    FilterAppend(a, b, p);
    if forall j :: 0 <= j < |a| ==> a[j].id != id {
      FilterKeepsAll(a, p);
    }
    if forall j :: 0 <= j < |a| ==> a[j].id == id {
      FilterDropsAll(a, p);
    }
  }

  /** An accepted `addRule` with a fresh id keeps ids distinct and services unique. */
  lemma AddPreservesInvariants(rules: seq<RouterRule>, rule: NewRule, newId: string)
    requires UniqueServices(rules) && DistinctIds(rules)
    requires forall j :: 0 <= j < |rules| ==> rules[j].id != newId
    requires !HasRuleForService(rules, rule.serviceId, None)
    ensures UniqueServices(rules + [WithId(rule, newId)]) && DistinctIds(rules + [WithId(rule, newId)])
  {
  }

  /**
   * An accepted `updateRule` keeps ids distinct and services unique, when ids are distinct
   * and the update does not supply the empty serviceId (which skips the guard).
   */
  lemma UpdatePreservesInvariants(rules: seq<RouterRule>, id: string, updates: RuleUpdate)
    requires UniqueServices(rules) && DistinctIds(rules)
    requires updates.serviceId != Some("")
    requires !UpdateRejected(rules, id, updates)
    ensures UniqueServices(Updated(rules, id, updates)) && DistinctIds(Updated(rules, id, updates))
  {
    var r := Updated(rules, id, updates);
    match IndexOfId(rules, id)
    case None =>
    case Some(k) =>
      forall i, j | 0 <= i < j < |r| ensures ServiceIdOf(r[i]) != ServiceIdOf(r[j]) {
        if i != k && j != k {
          assert r[i] == rules[i] && r[j] == rules[j];
        } else if updates.serviceId.Some? {
          var o := if i == k then j else i;
          assert r[o] == rules[o];
          assert rules[o].id != rules[k].id;
        } else {
          assert r[i].serviceId == rules[i].serviceId && r[j].serviceId == rules[j].serviceId;
        }
      }
  }

  /** An empty serviceId is falsy, so `updateRule` lets it through even when another rule holds it. */
  lemma EmptyServiceIdSkipsUpdateGuard()
    ensures var rules := [RouterRule("a", "gmail", "x@example.com", true, None), RouterRule("b", "", "y@example.com", true, None)];
      var updates := RuleUpdate(Some(""), None, None, None);
      && UniqueServices(rules) && DistinctIds(rules)
      && HasRuleForService(rules, "", Some("a"))
      && !UpdateRejected(rules, "a", updates)
      && !UniqueServices(Updated(rules, "a", updates))
  {
    var rules := [RouterRule("a", "gmail", "x@example.com", true, None), RouterRule("b", "", "y@example.com", true, None)];
    var updates := RuleUpdate(Some(""), None, None, None);
    assert rules[0].id == "a";
    assert rules[1].serviceId == "" && rules[1].id != "a";
    var r := Updated(rules, "a", updates);
    assert r[0].serviceId == "" && r[1].serviceId == "";
  }

  /** `deleteRule` keeps ids distinct and services unique. */
  lemma DeletePreservesInvariants(rules: seq<RouterRule>, id: string)
    requires UniqueServices(rules) && DistinctIds(rules)
    ensures UniqueServices(Deleted(rules, id)) && DistinctIds(Deleted(rules, id))
  {
    FilterKeepsDistinctBy(rules, (r: RouterRule) => r.id != id, ServiceIdOf);
    FilterKeepsDistinctBy(rules, (r: RouterRule) => r.id != id, IdOf);
  }

  /** `browser.storage.sync` holding the `routerRules` list. */
  class RuleStore {
    var rules: seq<RouterRule>

    /** A store in which nothing has been saved yet. */
    constructor ()
      ensures rules == []
    {
      rules := [];
    }

    /** `getRules`: the stored list (the empty list when nothing was saved). */
    method GetRules() returns (result: seq<RouterRule>)
      ensures result == rules
    {
      result := rules;
    }

    /** `addRule`: rejected when the service already has a rule; otherwise appended with `newId`. */
    method AddRule(rule: NewRule, newId: string) returns (outcome: Outcome<StoreError>)
      requires forall j :: 0 <= j < |rules| ==> rules[j].id != newId
      modifies this
      ensures outcome == (if HasRuleForService(old(rules), rule.serviceId, None) then Fail(ServiceTakenOnAdd) else Pass)
      ensures outcome.Fail? ==> rules == old(rules)
      ensures outcome.Pass? ==> rules == old(rules) + [WithId(rule, newId)]
    {
      var taken := HasRuleForService(rules, rule.serviceId, None);
      if taken {
        return Fail(ServiceTakenOnAdd);
      }
      var current := GetRules();
      rules := current + [WithId(rule, newId)];
      outcome := Pass;
    }

    /** `updateRule`: rejected on a service clash; otherwise merges into the first rule with `id`, if any. */
    method UpdateRule(id: string, updates: RuleUpdate) returns (outcome: Outcome<StoreError>)
      modifies this
      ensures outcome == (if UpdateRejected(old(rules), id, updates) then Fail(ServiceTakenOnUpdate) else Pass)
      ensures outcome.Fail? ==> rules == old(rules)
      ensures outcome.Pass? ==> rules == Updated(old(rules), id, updates)
    {
      if updates.serviceId.Some? && updates.serviceId.value != "" {
        var taken := HasRuleForService(rules, updates.serviceId.value, Some(id));
        if taken {
          return Fail(ServiceTakenOnUpdate);
        }
      }
      var current := GetRules();
      var index := IndexOfId(current, id);
      if index.Some? {
        rules := current[index.value := Merge(current[index.value], updates)];
      }
      outcome := Pass;
    }

    /** `deleteRule`: keeps exactly the rules whose id differs. */
    method DeleteRule(id: string)
      modifies this
      ensures rules == Deleted(old(rules), id)
    {
      var current := GetRules();
      rules := Deleted(current, id);
    }
  }
}
