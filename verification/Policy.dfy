/** The policy store as a set of rules: what each write to it leaves. */
module Policy {
  import opened Wrappers
  import opened Order
  import opened Model
  import opened Snapshots
  import opened Replay
  import opened Scan
  import opened Repos
  import opened Guards
  import opened Groups

  function RuleSet(rows: map<Tag, Row>): set<Rule> {
    set r | r in rows && rows[r].CasbinRow? :: rows[r].rule
  }

  function KeySet(rules: set<Rule>): set<string> {
    set q | q in rules :: RuleKey(q)
  }

  lemma RuleLookup(s: State, key: string)
    requires Trusted(s)
    ensures IdByNaturalKey(s, CasbinRule, key).Some? <==> key in KeySet(RuleSet(s.rows))
    ensures GetByNaturalKey(s, CasbinRule, key).Some? <==> key in KeySet(RuleSet(s.rows))
    ensures IdByNaturalKey(s, CasbinRule, key).Some? ==>
              var ref := Tag(CasbinRule, IdByNaturalKey(s, CasbinRule, key).value);
              ref in s.rows && s.rows[ref].CasbinRow? && RuleKey(s.rows[ref].rule) == key
  {
    hide RuleKey, Trusted;
    if IdByNaturalKey(s, CasbinRule, key).Some? {
      IndexedRule(s, key);
      var ref := Tag(CasbinRule, IdByNaturalKey(s, CasbinRule, key).value);
      assert s.rows[ref].rule in RuleSet(s.rows);
    }
    if key in KeySet(RuleSet(s.rows)) {
      var r :| r in s.rows && s.rows[r].CasbinRow? && RuleKey(s.rows[r].rule) == key;
      RuleIndexed(s, r);
    }
  }

  lemma IndexedRule(s: State, key: string)
    requires Trusted(s) && Tag(CasbinRule, key) in s.index
    ensures var ref := Tag(CasbinRule, s.index[Tag(CasbinRule, key)]);
            ref in s.rows && s.rows[ref].CasbinRow? && RuleKey(s.rows[ref].rule) == key
  {
    hide RuleKey, FaithfulRows, Complete;
    var ref := Tag(CasbinRule, s.index[Tag(CasbinRule, key)]);
    assert KeyAt(s, ref) == Some(Tag(CasbinRule, key));
    assert s.rows[ref].Kind() == CasbinRule;
  }

  lemma RuleIndexed(s: State, r: Tag)
    requires Trusted(s) && r in s.rows && s.rows[r].CasbinRow?
    ensures r.kind == CasbinRule && |r.text| == 36
    ensures var k := Tag(CasbinRule, RuleKey(s.rows[r].rule)); k in s.index && s.index[k] == r.text
  {
    hide RuleKey, FaithfulRows, NoStale;
    assert KeyOf(s.rows[r]) == Some(Tag(CasbinRule, RuleKey(s.rows[r].rule)));
    assert s.rows[r].Kind() == r.kind;
  }

  lemma RulesUnique(s: State, q: Tag, r: Tag)
    requires Trusted(s) && q in s.rows && r in s.rows && s.rows[q].CasbinRow? && s.rows[r].CasbinRow?
    requires RuleKey(s.rows[q].rule) == RuleKey(s.rows[r].rule)
    ensures q == r && q.kind == CasbinRule && |q.text| == 36
  {
    hide RuleKey, Trusted;
    RuleIndexed(s, q);
    RuleIndexed(s, r);
  }

  /** Adding takes effect and answers true exactly when no rule has the key yet. */
  lemma AddIsUnion(s: State, rule: Rule, ids: seq<Id>)
    requires Trusted(s) && |ids| >= 1 && Unused(s, CasbinRule, ids)
    ensures var b := Build(OnRule(AddRule(rule)), ids, s);
            && b.Built? && b.reply == Flag(RuleKey(rule) !in KeySet(RuleSet(s.rows)))
            && (b.actions != [] <==> b.reply.value)
            && RuleSet(AfterAll(s, b.actions).rows) ==
                 if RuleKey(rule) in KeySet(RuleSet(s.rows)) then RuleSet(s.rows) else RuleSet(s.rows) + {rule}
  {
    hide Trusted, RuleKey, KeySet, GetByNaturalKey;
    RuleLookup(s, RuleKey(rule));
    if RuleKey(rule) !in KeySet(RuleSet(s.rows)) {
      var a := Upsert(CasbinRule, ids[0], CasbinRow(rule));
      AfterOne(s, a);
      var rows := After(s, a).rows;
      assert rows == s.rows[a.Ref() := a.row];
      forall q ensures q in RuleSet(rows) <==> q in RuleSet(s.rows) + {rule} {
        if q in RuleSet(s.rows) {
          var r :| r in s.rows && s.rows[r].CasbinRow? && s.rows[r].rule == q;
          assert r in rows && rows[r] == s.rows[r];
        }
        assert rule == rows[a.Ref()].rule;
      }
    }
  }

  /** Dropping rows by id drops the rules those rows hold. */
  lemma RemovedRules(s: State, ids: seq<Id>, q: Rule)
    requires Trusted(s)
    ensures q in RuleSet(AfterAll(s, Removals(CasbinRule, ids)).rows) <==>
            q in RuleSet(s.rows) && forall i | 0 <= i < |ids| :: Get(s, CasbinRule, ids[i]) != Some(CasbinRow(q))
  {
    hide Trusted, AfterAll, Removals;
    var rows := AfterAll(s, Removals(CasbinRule, ids)).rows;
    if q in RuleSet(rows) {
      var r :| r in rows && rows[r].CasbinRow? && rows[r].rule == q;
      AfterRemovals(s, CasbinRule, ids, r);
      forall i | 0 <= i < |ids| ensures Get(s, CasbinRule, ids[i]) != Some(CasbinRow(q)) {
        if Get(s, CasbinRule, ids[i]) == Some(CasbinRow(q)) { RulesUnique(s, r, Tag(CasbinRule, ids[i])); }
      }
    }
    if q in RuleSet(s.rows) && forall i | 0 <= i < |ids| :: Get(s, CasbinRule, ids[i]) != Some(CasbinRow(q)) {
      var r :| r in s.rows && s.rows[r].CasbinRow? && s.rows[r].rule == q;
      AfterRemovals(s, CasbinRule, ids, r);
      RulesUnique(s, r, r);
    }
  }

  lemma {:induction false} FoundAre(s: State, rules: seq<Rule>, id: Id)
    ensures id in FoundIds(s, rules) <==> exists q :: q in rules && IdByNaturalKey(s, CasbinRule, RuleKey(q)) == Some(id)
  {
    hide RuleKey;
    if rules != [] {
      FoundAre(s, rules[1..], id);
      assert forall q :: q in rules <==> q == rules[0] || q in rules[1..];
    }
  }

  function KeysOf(rules: seq<Rule>): set<string> {
    set q | q in rules :: RuleKey(q)
  }

  /** One removal of a batch drops exactly the rules whose key is named, and answers whether
      there were any. */
  lemma RemoveManyIsDifference(s: State, rules: seq<Rule>, ids: seq<Id>)
    requires Trusted(s)
    ensures var b := Build(OnRule(RemoveRules(rules)), ids, s);
            && b.Built? && b.reply == Flag(KeysOf(rules) * KeySet(RuleSet(s.rows)) != {})
            && RuleSet(AfterAll(s, b.actions).rows) == set q | q in RuleSet(s.rows) && RuleKey(q) !in KeysOf(rules)
  {
    hide Trusted, RuleKey, AfterAll, IdByNaturalKey, FoundIds, KeysOf, KeySet, Removals;
    var found := FoundIds(s, rules);
    var b := Build(OnRule(RemoveRules(rules)), ids, s);
    assert b == Built(Removals(CasbinRule, found), Flag(Removals(CasbinRule, found) != []));
    RemovalCount(found);
    if found != [] {
      FoundNamed(s, rules, found[0]);
      FoundKey(s, rules, found[0]);
    }
    forall key | key in KeysOf(rules) && key in KeySet(RuleSet(s.rows)) ensures found != [] {
      RuleLookup(s, key);
      NamedFound(s, rules, key);
    }
    forall q ensures q in RuleSet(AfterAll(s, b.actions).rows) <==> q in RuleSet(s.rows) && RuleKey(q) !in KeysOf(rules) {
      RemovedRules(s, found, q);
      if q in RuleSet(s.rows) {
        KeyInSet(s, q);
        RuleLookup(s, RuleKey(q));
        if RuleKey(q) in KeysOf(rules) {
          NamedFound(s, rules, RuleKey(q));
          SoleHolder(s, q);
        } else {
          forall i | 0 <= i < |found| ensures Get(s, CasbinRule, found[i]) != Some(CasbinRow(q)) {
            assert found[i] in found;
            FoundNamed(s, rules, found[i]);
          }
        }
      }
    }
  }

  lemma RemovalCount(ids: seq<Id>)
    ensures |Removals(CasbinRule, ids)| == |ids|
  {
  }

  lemma KeyInSet(s: State, q: Rule)
    requires q in RuleSet(s.rows)
    ensures RuleKey(q) in KeySet(RuleSet(s.rows))
  {
  }

  lemma SoleHolder(s: State, q: Rule)
    requires Trusted(s) && q in RuleSet(s.rows)
    ensures var id := IdByNaturalKey(s, CasbinRule, RuleKey(q)); id.Some? && Get(s, CasbinRule, id.value) == Some(CasbinRow(q))
  {
    hide Trusted, RuleKey, KeySet;
    KeyInSet(s, q);
    RuleLookup(s, RuleKey(q));
    var r :| r in s.rows && s.rows[r].CasbinRow? && s.rows[r].rule == q;
    RulesUnique(s, r, Tag(CasbinRule, IdByNaturalKey(s, CasbinRule, RuleKey(q)).value));
  }

  /** What a listed id holds is a rule whose key was named. */
  lemma FoundNamed(s: State, rules: seq<Rule>, id: Id)
    requires Trusted(s) && id in FoundIds(s, rules)
    ensures var row := Get(s, CasbinRule, id); row.Some? && row.value.CasbinRow? && RuleKey(row.value.rule) in KeysOf(rules)
  {
    hide Trusted, RuleKey, FoundIds, IdByNaturalKey, KeySet;
    FoundAre(s, rules, id);
    var q :| q in rules && IdByNaturalKey(s, CasbinRule, RuleKey(q)) == Some(id);
    RuleLookup(s, RuleKey(q));
  }

  lemma FoundKey(s: State, rules: seq<Rule>, id: Id)
    requires Trusted(s) && id in FoundIds(s, rules)
    ensures KeysOf(rules) * KeySet(RuleSet(s.rows)) != {}
  {
    hide Trusted, RuleKey, FoundIds;
    FoundNamed(s, rules, id);
    var q := Get(s, CasbinRule, id).value.rule;
    KeyInSet(s, q);
    assert RuleKey(q) in KeysOf(rules) * KeySet(RuleSet(s.rows));
  }

  lemma NamedFound(s: State, rules: seq<Rule>, key: string)
    requires Trusted(s) && key in KeysOf(rules) && IdByNaturalKey(s, CasbinRule, key).Some?
    ensures IdByNaturalKey(s, CasbinRule, key).value in FoundIds(s, rules)
  {
    hide RuleKey, FoundIds, IdByNaturalKey;
    FoundAre(s, rules, IdByNaturalKey(s, CasbinRule, key).value);
  }

  /** Removing one rule is removing the batch of it alone. */
  lemma RemoveIsDifference(s: State, rule: Rule, ids: seq<Id>)
    requires Trusted(s)
    ensures var b := Build(OnRule(RemoveRule(rule)), ids, s);
            && b.Built? && b.reply == Flag(RuleKey(rule) in KeySet(RuleSet(s.rows)))
            && RuleSet(AfterAll(s, b.actions).rows) == set q | q in RuleSet(s.rows) && RuleKey(q) != RuleKey(rule)
  {
    hide Trusted, RuleKey, AfterAll, KeySet;
    RemoveManyIsDifference(s, [rule], ids);
    assert KeysOf([rule]) == {RuleKey(rule)};
    RuleLookup(s, RuleKey(rule));
    assert FoundIds(s, [rule][1..]) == [];
    assert Build(OnRule(RemoveRule(rule)), ids, s).actions == Build(OnRule(RemoveRules([rule])), ids, s).actions;
  }

  lemma UnseenUpserts(rules: seq<Rule>, ids: seq<Id>, s: State)
    requires |ids| >= |rules| && Unused(s, CasbinRule, ids)
    ensures DistinctUpserts(RuleUpserts(rules, ids))
  {
  }

  lemma UnusedRules(s: State, rules: seq<Rule>, ids: seq<Id>)
    requires |ids| >= |rules| && Unused(s, CasbinRule, ids)
    requires forall r | r in s.rows :: !s.rows[r].CasbinRow?
    ensures RuleSet(AfterAll(s, RuleUpserts(rules, ids)).rows) == set q | q in rules
  {
    hide AfterAll, Unused;
    var p := RuleUpserts(rules, ids);
    var rows := AfterAll(s, p).rows;
    UnseenUpserts(rules, ids, s);
    forall q ensures q in RuleSet(rows) <==> q in rules {
      if q in RuleSet(rows) {
        var r :| r in rows && rows[r].CasbinRow? && rows[r].rule == q;
        var i := RowSource(s, p, r);
        assert i >= 0 && rows[r] == CasbinRow(rules[i]);
      }
      if q in rules {
        var i :| 0 <= i < |rules| && rules[i] == q;
        UpsertsLand(s, p, i);
        assert rows[p[i].Ref()] == CasbinRow(q);
      }
    }
  }

  lemma ClearedHoldsNone(s: State, ids: seq<Id>)
    requires Trusted(s) && Unused(s, CasbinRule, ids)
    ensures var t := AfterAll(s, Removals(CasbinRule, IdsByKind(s, CasbinRule)));
            (forall r | r in t.rows :: !t.rows[r].CasbinRow?) && Unused(t, CasbinRule, ids)
  {
    hide AfterAll, Removals, Complete, NoStale, FaithfulRows, IdsByKind;
    var listed := IdsByKind(s, CasbinRule);
    var t := AfterAll(s, Removals(CasbinRule, listed));
    RulesCleared(s);
    forall r | r in t.rows ensures !t.rows[r].CasbinRow? {
      AfterRemovals(s, CasbinRule, listed, r);
      assert s.rows[r].Kind() == r.kind;
    }
    forall i | 0 <= i < |ids| ensures Tag(CasbinRule, ids[i]) !in t.rows {
      AfterRemovals(s, CasbinRule, listed, Tag(CasbinRule, ids[i]));
    }
  }

  predicate KeysTellApart(rules: seq<Rule>) {
    forall q, r | q in rules && r in rules :: RuleKey(q) == RuleKey(r) ==> q == r
  }

  /** `casbin::replace_all` leaves the first rule given for each key, and nothing else; that
      is the very set given exactly when different rules have different keys. */
  lemma ReplaceAllIsAssignment(s: State, rules: seq<Rule>, ids: seq<Id>)
    requires Trusted(s) && |ids| >= |rules| && Unused(s, CasbinRule, ids)
    ensures var left := RuleSet(AfterAll(s, Build(OnRule(ReplaceRules(rules)), ids, s).actions).rows);
            && left == (set q | q in Unseen(rules, {}))
            && KeySet(left) == KeysOf(rules)
            && (left == (set q | q in rules) <==> KeysTellApart(rules))
  {
    hide Trusted, AfterAll, Removals, RuleUpserts, IdsByKind, Unseen, Unused, RuleKey;
    var stale := Removals(CasbinRule, IdsByKind(s, CasbinRule));
    var kept := Unseen(rules, {});
    AfterAllConcat(s, stale, RuleUpserts(kept, ids));
    ClearedHoldsNone(s, ids);
    UnusedRules(AfterAll(s, stale), kept, ids);
    KeptKeys(rules);
    UnseenAreRules(rules, {});
    KeptAreAll(rules);
  }

  lemma KeptKeys(rules: seq<Rule>)
    ensures KeySet(set q | q in Unseen(rules, {})) == KeysOf(rules)
  {
    hide RuleKey, Unseen;
    UnseenAreRules(rules, {});
    forall q | q in rules ensures RuleKey(q) in KeySet(set u | u in Unseen(rules, {})) { UnseenCovers(rules, {}, q); }
  }

  lemma KeptAreAll(rules: seq<Rule>)
    ensures (set q | q in Unseen(rules, {})) == (set q | q in rules) <==> KeysTellApart(rules)
  {
    hide RuleKey, Unseen;
    var kept := Unseen(rules, {});
    UnseenAreRules(rules, {});
    UnseenDistinct(rules, {});
    if KeysTellApart(rules) {
      forall q | q in rules ensures q in kept {
        UnseenCovers(rules, {}, q);
      }
    }
    var left, given := set q | q in kept, set q | q in rules;
    if left == given {
      forall q, r | q in rules && r in rules && RuleKey(q) == RuleKey(r) ensures q == r {
        assert q in given && r in given;
        var i :| 0 <= i < |kept| && kept[i] == q;
        var j :| 0 <= j < |kept| && kept[j] == r;
      }
    }
  }

  lemma JoinTails(q: Rule)
    ensures RuleKey(q) == q[0] + [NUL] + (q[1] + [NUL] + (q[2] + [NUL] + (q[3] + [NUL] + (q[4] + [NUL] + (q[5] + [NUL] + q[6])))))
  {
    assert Join(q[5..]) == q[5] + [NUL] + Join(q[5..][1..]) == q[5] + [NUL] + q[6];
    assert q[4..][1..] == q[5..] && q[3..][1..] == q[4..] && q[2..][1..] == q[3..] && q[1..][1..] == q[2..];
    assert Join(q[4..]) == q[4] + [NUL] + Join(q[5..]);
    assert Join(q[3..]) == q[3] + [NUL] + Join(q[4..]);
    assert Join(q[2..]) == q[2] + [NUL] + Join(q[3..]);
    assert Join(q[1..]) == q[1] + [NUL] + Join(q[2..]);
  }

  /** Two rules, a NUL between them in different columns, with one key: of the two,
      `replace_all` keeps the first. */
  lemma SomeRulesShareAKey(s: State, ids: seq<Id>)
    requires Trusted(s) && |ids| >= 2 && Unused(s, CasbinRule, ids)
    ensures var q: Rule := [['a', NUL, 'b'], "c", "", "", "", "", ""];
            var r: Rule := ["a", "b", "c", "", "", "", [NUL]];
            && q != r && RuleKey(q) == RuleKey(r) && !KeysTellApart([q, r])
            && RuleSet(AfterAll(s, Build(OnRule(ReplaceRules([q, r])), ids, s).actions).rows) == {q}
  {
    hide Trusted, AfterAll, Build, Unused, RuleSet;
    var q: Rule := [['a', NUL, 'b'], "c", "", "", "", "", ""];
    var r: Rule := ["a", "b", "c", "", "", "", [NUL]];
    JoinTails(q);
    JoinTails(r);
    assert q[1] != r[1];
    ReplaceAllIsAssignment(s, [q, r], ids);
    assert Unseen([q, r], {}) == [q] + Unseen([r], {RuleKey(q)});
    assert Unseen([r], {RuleKey(q)}) == Unseen([], {RuleKey(q)});
  }

  /** Columns free of NUL, but for the last, make keys tell rules apart. */
  lemma NulFreeRulesTellApart(rules: seq<Rule>)
    requires forall q, i | q in rules && 0 <= i < 6 :: NulFree(q[i])
    ensures KeysTellApart(rules)
  {
    hide NulFree;
    forall q, r | q in rules && r in rules && RuleKey(q) == RuleKey(r) ensures q == r {
      assert forall i | 0 <= i < 6 :: NulFree(q[i]) && NulFree(r[i]);
      JoinIsInjective(q, r);
    }
  }

  /** `casbin::clear` leaves no rule. */
  lemma ClearLeavesNone(s: State, ids: seq<Id>)
    requires Trusted(s)
    ensures RuleSet(AfterAll(s, Build(OnRule(ClearRules), ids, s).actions).rows) == {}
  {
    hide Trusted, AfterAll, Removals, IdsByKind;
    ClearedHoldsNone(s, []);
  }

  // ----- the loop of `replace_all` -----

  lemma NoUpserts(ids: seq<Id>)
    ensures RuleUpserts([], ids) == []
  {
  }

  lemma UpsertsNext(kept: seq<Rule>, rule: Rule, ids: seq<Id>)
    requires |ids| > |kept|
    ensures |RuleUpserts(kept, ids)| == |kept|
    ensures RuleUpserts(kept + [rule], ids) == RuleUpserts(kept, ids) + [Upsert(CasbinRule, ids[|kept|], CasbinRow(rule))]
  {
  }

  /** The actions one by one, keeping the keys seen so far. */
  method ReplaceAll(s: State, rules: seq<Rule>, ids: seq<Id>) returns (actions: seq<Action>)
    requires |ids| >= |rules|
    ensures Build(OnRule(ReplaceRules(rules)), ids, s) == Built(actions, Unit)
  {
    hide RuleKey, IdsByKind, Removals, RuleUpserts;
    var stale := Removals(CasbinRule, IdsByKind(s, CasbinRule));
    actions := stale;
    var seen: set<string> := {};
    ghost var kept: seq<Rule> := [];
    NoUpserts(ids);
    for i := 0 to |rules|
      invariant |kept| <= i
      invariant actions == stale + RuleUpserts(kept, ids)
      invariant Unseen(rules, {}) == kept + Unseen(rules[i..], seen)
    {
      assert rules[i..][1..] == rules[i + 1..];
      var key := RuleKey(rules[i]);
      if key !in seen {
        UpsertsNext(kept, rules[i], ids);
        actions := actions + [Upsert(CasbinRule, ids[|actions| - |stale|], CasbinRow(rules[i]))];
        kept := kept + [rules[i]];
        seen := seen + {key};
      }
    }
    assert rules[|rules|..] == [];
    assert kept == Unseen(rules, {});
    assert actions == stale + RuleUpserts(Unseen(rules, {}), ids);
  }
}
