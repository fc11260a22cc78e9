/** What an evaluation executes, whatever order the repository listed the rules in. */
module RuleLaws {
  import opened Results
  import opened Text
  import opened RuleMatch
  import opened RuleEngine

  // ---- sorting -----------------------------------------------------------------

  predicate IdNotIn(id: string, rules: seq<Rule>) {
    forall i :: 0 <= i < |rules| ==> rules[i].id != id
  }

  lemma {:induction false} InsertOrdered(r: Rule, rules: seq<Rule>)
    requires StrictlyOrdered(rules) && IdNotIn(r.id, rules)
    ensures StrictlyOrdered(Insert(r, rules))
    ensures multiset(Insert(r, rules)) == multiset(rules) + multiset{r}
  {
    hide Before;
    if rules != [] {
      var head, tail := rules[0], rules[1..];
      assert rules == [head] + tail;
      BeforeTotal(r, head);
      if Before(head, r) {
        InsertOrdered(r, tail);
        HeadFirst(head, r, tail, Insert(r, tail));
      } else {
        forall j | 0 <= j < |rules| ensures Before(r, rules[j]) {
          if j > 0 {
            BeforeTransitive(r, head, rules[j]);
          }
        }
      }
    }
  }

  lemma HeadFirst(head: Rule, r: Rule, tail: seq<Rule>, out: seq<Rule>)
    requires StrictlyOrdered(out) && multiset(out) == multiset(tail) + multiset{r} && Before(head, r)
    requires forall j :: 0 <= j < |tail| ==> Before(head, tail[j])
    ensures StrictlyOrdered([head] + out)
  {
    hide Before;
    forall j | 0 <= j < |out| ensures Before(head, out[j]) {
      assert out[j] in multiset(out);
      assert out[j] == r || out[j] in tail;
    }
  }

  lemma {:induction false} SortOrdered(rules: seq<Rule>)
    requires DistinctIds(rules)
    ensures StrictlyOrdered(Sort(rules)) && multiset(Sort(rules)) == multiset(rules)
  {
    if rules != [] {
      var tail := rules[1..];
      assert rules == [rules[0]] + tail;
      SortOrdered(tail);
      var sorted := Sort(tail);
      forall i | 0 <= i < |sorted| ensures sorted[i].id != rules[0].id {
        assert sorted[i] in multiset(sorted);
        assert sorted[i] in tail;
      }
      InsertOrdered(rules[0], sorted);
    }
  }

  /** There is only one way to put a collection of rules in strict order. */
  lemma {:induction false} OrderedUnique(xs: seq<Rule>, ys: seq<Rule>)
    requires StrictlyOrdered(xs) && StrictlyOrdered(ys) && multiset(xs) == multiset(ys)
    ensures xs == ys
  {
    hide Before;
    if xs == [] {
      assert |multiset(ys)| == 0;
    } else {
      assert xs[0] in multiset(ys) && |multiset(xs)| == |multiset(ys)|;
      HeadsAgree(xs, ys);
      assert xs == [xs[0]] + xs[1..] && ys == [ys[0]] + ys[1..];
      assert multiset(xs[1..]) == multiset(xs) - multiset{xs[0]};
      assert multiset(ys[1..]) == multiset(ys) - multiset{ys[0]};
      OrderedUnique(xs[1..], ys[1..]);
    }
  }

  lemma HeadsAgree(xs: seq<Rule>, ys: seq<Rule>)
    requires xs != [] && ys != []
    requires StrictlyOrdered(xs) && StrictlyOrdered(ys) && multiset(xs) == multiset(ys)
    ensures xs[0] == ys[0]
  {
    hide Before;
    assert xs[0] in multiset(ys) && ys[0] in multiset(xs);
    var i :| 0 <= i < |ys| && ys[i] == xs[0];
    var j :| 0 <= j < |xs| && xs[j] == ys[0];
    if i > 0 && j > 0 {
      assert Before(ys[0], ys[i]) && Before(xs[0], xs[j]);
      BeforeAsymmetric(xs[0], ys[0]);
    }
  }

  // ---- the matched rules --------------------------------------------------------

  lemma LastIsNew(rules: seq<Rule>)
    requires DistinctIds(rules) && rules != []
    ensures var front, last := rules[..|rules| - 1], rules[|rules| - 1];
      rules == front + [last] && DistinctIds(front) && IdNotIn(last.id, front) && last !in front
      && forall r :: r in front ==> r.id != last.id
  {
    var front := rules[..|rules| - 1];
    assert forall k :: 0 <= k < |front| ==> front[k] == rules[k] && rules[k].id != rules[|front|].id;
  }

  /** How often a rule value matches. */
  lemma {:induction false} MatchingMultiset(rules: seq<Rule>, ec: EvalContext, r: Rule)
    ensures multiset(Matching(rules, ec))[r] == if MatchesAll(r.conditions, ec) then multiset(rules)[r] else 0
  {
    hide MatchesAll;
    if rules != [] {
      var front, last := rules[..|rules| - 1], rules[|rules| - 1];
      assert rules == front + [last];
      MatchingMultiset(front, ec, r);
    }
  }

  lemma {:induction false} MatchingDistinct(rules: seq<Rule>, ec: EvalContext)
    requires DistinctIds(rules)
    ensures DistinctIds(Matching(rules, ec))
    ensures forall r :: r in Matching(rules, ec) ==> r in rules && MatchesAll(r.conditions, ec)
  {
    hide MatchesAll;
    if rules != [] {
      var front, last := rules[..|rules| - 1], rules[|rules| - 1];
      assert rules == front + [last];
      MatchingDistinct(front, ec);
      var m := Matching(front, ec);
      LastIsNew(rules);
      forall i | 0 <= i < |m| ensures m[i].id != last.id {
        assert m[i] in front;
      }
    }
  }

  function Matched(rules: seq<Rule>, ec: EvalContext): seq<Rule> {
    Sort(Matching(rules, ec))
  }

  /** The rules to run are exactly those that match, each once, in strict order. */
  lemma MatchedIsOrdered(rules: seq<Rule>, ec: EvalContext)
    requires DistinctIds(rules)
    ensures StrictlyOrdered(Matched(rules, ec)) && DistinctIds(Matched(rules, ec))
    ensures forall r :: r in Matched(rules, ec) <==> r in rules && MatchesAll(r.conditions, ec)
  {
    hide MatchesAll, StrictlyOrdered, Sort, Matching;
    MatchingDistinct(rules, ec);
    SortOrdered(Matching(rules, ec));
    SameDistinct(Matching(rules, ec), Matched(rules, ec));
    forall r ensures r in Matched(rules, ec) <==> r in rules && MatchesAll(r.conditions, ec) {
      MatchingMultiset(rules, ec, r);
      assert r in Matched(rules, ec) <==> r in multiset(Matched(rules, ec));
      assert r in rules <==> r in multiset(rules);
    }
  }

  lemma {:induction false} DistinctByCount(rules: seq<Rule>)
    requires forall r, s :: r in rules && s in rules && r.id == s.id ==> r == s
    requires forall r :: r in rules ==> multiset(rules)[r] == 1
    ensures DistinctIds(rules)
  {
    forall i, j | 0 <= i < j < |rules| ensures rules[i].id != rules[j].id {
      if rules[i].id == rules[j].id {
        assert rules[i] == rules[j];
        TwiceCounts(rules, i, j);
      }
    }
  }

  lemma TwiceCounts(rules: seq<Rule>, i: nat, j: nat)
    requires i < j < |rules| && rules[i] == rules[j]
    ensures multiset(rules)[rules[i]] >= 2
  {
    assert rules == rules[..j] + rules[j..];
    assert rules[..j][i] == rules[i] && rules[j..][0] == rules[j];
    assert rules[i] in rules[..j] && rules[i] in rules[j..];
    assert rules[i] in multiset(rules[..j]) && rules[i] in multiset(rules[j..]);
  }

  lemma {:induction false} CountsOnce(rules: seq<Rule>, r: Rule)
    requires DistinctIds(rules) && r in rules
    ensures multiset(rules)[r] == 1
  {
    var front, last := rules[..|rules| - 1], rules[|rules| - 1];
    assert rules == front + [last];
    LastIsNew(rules);
    if r in front {
      CountsOnce(front, r);
    } else {
      assert multiset(front)[r] == 0;
    }
  }

  lemma OneRulePerId(rules: seq<Rule>, r: Rule, s: Rule)
    requires DistinctIds(rules) && r in rules && s in rules && r.id == s.id
    ensures r == s
  {
    var i :| 0 <= i < |rules| && rules[i] == r;
    var j :| 0 <= j < |rules| && rules[j] == s;
    assert !(i < j) && !(j < i);
  }

  lemma SameDistinct(xs: seq<Rule>, ys: seq<Rule>)
    requires DistinctIds(xs) && multiset(xs) == multiset(ys)
    ensures DistinctIds(ys)
  {
    forall r | r in ys ensures r in xs && multiset(ys)[r] == 1 {
      assert r in multiset(ys);
      CountsOnce(xs, r);
    }
    forall r, s | r in ys && s in ys && r.id == s.id ensures r == s {
      OneRulePerId(xs, r, s);
    }
    DistinctByCount(ys);
  }

  /** The order the repository returned the rules in does not matter. */
  lemma OrderIndependent(xs: seq<Rule>, ys: seq<Rule>, ec: EvalContext)
    requires DistinctIds(xs) && multiset(xs) == multiset(ys)
    ensures Matched(xs, ec) == Matched(ys, ec)
  {
    hide MatchesAll, StrictlyOrdered, DistinctIds, Sort, Matching;
    SameDistinct(xs, ys);
    MatchingDistinct(xs, ec);
    MatchingDistinct(ys, ec);
    forall r ensures multiset(Matching(xs, ec))[r] == multiset(Matching(ys, ec))[r] {
      MatchingMultiset(xs, ec, r);
      MatchingMultiset(ys, ec, r);
    }
    SortOrdered(Matching(xs, ec));
    SortOrdered(Matching(ys, ec));
    OrderedUnique(Matched(xs, ec), Matched(ys, ec));
  }

  // ---- what is run and logged ----------------------------------------------------

  /** A matched rule fires when it still matches and its firing is not claimed yet. */
  predicate Fires(claims: set<string>, task: Task, r: Rule, live: EvalContext, p: Ports) {
    MatchesAll(r.conditions, live)
    && (p.reply(r.id).Answered? ==> DedupKey(task.tenant, r.id, task.eventId) !in claims)
  }

  function Firing(claims: set<string>, task: Task, rules: seq<Rule>, live: EvalContext, p: Ports): seq<Rule> {
    if rules == [] then []
    else
      var front, last := Firing(claims, task, rules[..|rules| - 1], live, p), rules[|rules| - 1];
      if Fires(claims, task, last, live, p) then front + [last] else front
  }

  /** Every action of every rule, rules in order, actions in declared order. */
  function Runs(rules: seq<Rule>): seq<(string, nat)> {
    if rules == [] then []
    else Runs(rules[..|rules| - 1]) + ActionRuns(rules[|rules| - 1], |rules[|rules| - 1].actions|)
  }

  /** Two rules never share an event's claim, nor two events a rule's. */
  lemma DedupKeyInjective(tenant: string, a: string, e: string, b: string, f: string)
    requires DedupKey(tenant, a, e) == DedupKey(tenant, b, f)
    ensures e == f ==> a == b
    ensures a == b ==> e == f
  {
    var pre := "rule:fired:" + tenant + ":";
    var x, y := DedupKey(tenant, a, e), DedupKey(tenant, b, f);
    assert x == pre + a + ":" + e && y == pre + b + ":" + f;
    if e == f {
      assert |a| == |b|;
      assert a == x[|pre|..|pre| + |a|] && b == y[|pre|..|pre| + |b|];
    }
    if a == b {
      var head := pre + a + ":";
      assert e == x[|head|..] && f == y[|head|..];
    }
  }

  /** Claims are apart as soon as tenant and rule ids have no colon, which minted ids
      never have; event ids may be anything. */
  lemma FiringsAreApart(t: string, a: string, e: string, u: string, b: string, f: string)
    requires ':' !in t && ':' !in u && ':' !in a && ':' !in b
    ensures DedupKey(t, a, e) == DedupKey(u, b, f) <==> t == u && a == b && e == f
  {
    var pre := "rule:fired:";
    var x, y := t + [':'] + (a + [':'] + e), u + [':'] + (b + [':'] + f);
    assert DedupKey(t, a, e) == pre + x && DedupKey(u, b, f) == pre + y;
    hide DedupKey;
    if pre + x == pre + y {
      assert x == (pre + x)[|pre|..] && y == (pre + y)[|pre|..];
      SameHead(t, a + [':'] + e, u, b + [':'] + f);
      SameHead(a, e, b, f);
    }
  }

  lemma SameHead(h: string, rest: string, k: string, tail: string)
    requires ':' !in h && ':' !in k && h + [':'] + rest == k + [':'] + tail
    ensures h == k && rest == tail
  {
    IndexOfJoined(h, ':', rest);
    IndexOfJoined(k, ':', tail);
    var s := h + [':'] + rest;
    assert s[..|h|] == h && s[|h| + 1..] == rest && s[..|k|] == k && s[|k| + 1..] == tail;
  }

  /** The firings the rules claim: those still matching and let through to the store. */
  ghost predicate Claimed(task: Task, rules: seq<Rule>, live: EvalContext, p: Ports, key: string) {
    exists r :: r in rules && MatchesAll(r.conditions, live) && !p.reply(r.id).Unreached?
      && key == DedupKey(task.tenant, r.id, task.eventId)
  }

  lemma ClaimedStep(task: Task, rules: seq<Rule>, live: EvalContext, p: Ports, key: string)
    requires rules != []
    ensures Claimed(task, rules, live, p, key)
      <==> (Claimed(task, rules[..|rules| - 1], live, p, key) || Claimed(task, [rules[|rules| - 1]], live, p, key))
  {
    hide MatchesAll, DedupKey;
    var front, last := rules[..|rules| - 1], rules[|rules| - 1];
    assert rules == front + [last];
    assert last in [last];
  }

  /** An evaluation claims the firings of its own rules and no other. */
  lemma {:induction false} ClaimsOwnFirings(
    st: Store, task: Task, rules: seq<Rule>, live: EvalContext, p: Ports, key: string)
    ensures key in HandleAll(st, task, rules, live, p).claims
      <==> (key in st.claims || Claimed(task, rules, live, p, key))
  {
    hide MatchesAll, DedupKey, Claimed;
    if rules == [] {
      NothingClaimed(task, live, p, key);
    } else {
      var front, last := rules[..|rules| - 1], rules[|rules| - 1];
      ClaimsOwnFirings(st, task, front, live, p, key);
      ClaimedStep(task, rules, live, p, key);
      ClaimedOne(task, last, live, p, key);
    }
  }

  lemma NothingClaimed(task: Task, live: EvalContext, p: Ports, key: string)
    ensures !Claimed(task, [], live, p, key)
  {
  }

  lemma ClaimedOne(task: Task, r: Rule, live: EvalContext, p: Ports, key: string)
    ensures Claimed(task, [r], live, p, key)
      <==> (MatchesAll(r.conditions, live) && !p.reply(r.id).Unreached?
            && key == DedupKey(task.tenant, r.id, task.eventId))
  {
    hide MatchesAll, DedupKey;
    assert r in [r];
  }

  /** The earlier rules do not claim the last one's firing. */
  lemma LastUnclaimed(st: Store, task: Task, rules: seq<Rule>, live: EvalContext, p: Ports)
    requires DistinctIds(rules) && rules != []
    ensures var front, last := rules[..|rules| - 1], rules[|rules| - 1];
      Fires(HandleAll(st, task, front, live, p).claims, task, last, live, p) == Fires(st.claims, task, last, live, p)
  {
    hide MatchesAll, DedupKey, HandleAll;
    var front, last := rules[..|rules| - 1], rules[|rules| - 1];
    var key := DedupKey(task.tenant, last.id, task.eventId);
    LastIsNew(rules);
    ClaimsOwnFirings(st, task, front, live, p, key);
    forall r | r in front ensures key != DedupKey(task.tenant, r.id, task.eventId) {
      if key == DedupKey(task.tenant, r.id, task.eventId) {
        DedupKeyInjective(task.tenant, r.id, task.eventId, last.id, task.eventId);
      }
    }
  }

  /** Handling distinct rules runs exactly the actions of the rules that fire, in order. */
  lemma {:induction false} RunsInOrder(st: Store, task: Task, rules: seq<Rule>, live: EvalContext, p: Ports)
    requires DistinctIds(rules)
    ensures HandleAll(st, task, rules, live, p).ran == st.ran + Runs(Firing(st.claims, task, rules, live, p))
  {
    hide MatchesAll, DedupKey, ActionRuns, ActionRows, Firing, Runs;
    if rules == [] {
      NothingFires(st.claims, task, live, p);
    } else {
      var front := rules[..|rules| - 1];
      LastIsNew(rules);
      RunsInOrder(st, task, front, live, p);
      LastUnclaimed(st, task, rules, live, p);
      FiringStep(st.claims, task, rules, live, p);
    }
  }

  lemma NothingFires(claims: set<string>, task: Task, live: EvalContext, p: Ports)
    ensures Runs(Firing(claims, task, [], live, p)) == []
  {
  }

  lemma FiringStep(claims: set<string>, task: Task, rules: seq<Rule>, live: EvalContext, p: Ports)
    requires rules != []
    ensures var front, last := rules[..|rules| - 1], rules[|rules| - 1];
      Runs(Firing(claims, task, rules, live, p))
      == Runs(Firing(claims, task, front, live, p))
         + if Fires(claims, task, last, live, p) then ActionRuns(last, |last.actions|) else []
  {
    hide Fires, ActionRuns;
    var front := Firing(claims, task, rules[..|rules| - 1], live, p);
    var last := rules[|rules| - 1];
    assert (front + [last])[..|front|] == front;
  }

  /** How many rows name a rule. */
  function RowsOf(rows: seq<Row>, id: string): nat {
    if rows == [] then 0
    else RowsOf(rows[..|rows| - 1], id) + if rows[|rows| - 1].rule == id then 1 else 0
  }

  lemma {:induction false} RowsOfConcat(a: seq<Row>, b: seq<Row>, id: string)
    ensures RowsOf(a + b, id) == RowsOf(a, id) + RowsOf(b, id)
  {
    if b == [] {
      assert a + b == a;
    } else {
      RowsOfConcat(a, b[..|b| - 1], id);
      assert (a + b)[..|a + b| - 1] == a + b[..|b| - 1];
    }
  }

  lemma {:induction false} RowsOfAll(rows: seq<Row>, id: string)
    ensures (forall i :: 0 <= i < |rows| ==> rows[i].rule == id) ==> RowsOf(rows, id) == |rows|
    ensures (forall i :: 0 <= i < |rows| ==> rows[i].rule != id) ==> RowsOf(rows, id) == 0
  {
    if rows != [] {
      RowsOfAll(rows[..|rows| - 1], id);
    }
  }

  /** One rule writes one skip row, or one row per action when it fires, under its own
      id and no other. */
  lemma HandleRows(st: Store, task: Task, r: Rule, live: EvalContext, p: Ports, id: string)
    ensures RowsOf(Handle(st, task, r, live, p).logs, id) == RowsOf(st.logs, id) +
      if r.id != id then 0 else if Fires(st.claims, task, r, live, p) then |r.actions| else 1
  {
    hide MatchesAll, DedupKey, RowsOf;
    var st' := Handle(st, task, r, live, p);
    var rows := st'.logs[|st.logs|..];
    assert st'.logs == st.logs + rows;
    RowsOfConcat(st.logs, rows, id);
    RowsOfAll(rows, id);
    assert forall i :: 0 <= i < |rows| ==> rows[i].rule == r.id;
  }

  lemma {:induction false} RowsPerRule(st: Store, task: Task, rules: seq<Rule>, live: EvalContext, p: Ports, r: Rule)
    requires DistinctIds(rules)
    ensures var added := RowsOf(HandleAll(st, task, rules, live, p).logs, r.id) - RowsOf(st.logs, r.id);
      && (r in rules ==> added == if Fires(st.claims, task, r, live, p) then |r.actions| else 1)
      && (IdNotIn(r.id, rules) ==> added == 0)
  {
    hide MatchesAll, DedupKey, RowsOf, Handle;
    if rules != [] {
      var front, last := rules[..|rules| - 1], rules[|rules| - 1];
      assert rules == front + [last];
      RowsPerRule(st, task, front, live, p, r);
      var mid := HandleAll(st, task, front, live, p);
      HandleRows(mid, task, last, live, p, r.id);
      LastIsNew(rules);
      LastUnclaimed(st, task, rules, live, p);
    }
  }

  /** What a rule logs: that it no longer matches, that its firing is claimed already, or
      what came of each action. */
  function RowsOfRule(claims: set<string>, task: Task, r: Rule, live: EvalContext, p: Ports): seq<Row> {
    if !MatchesAll(r.conditions, live) then [Row(r.id, r.event, "", SkippedStale)]
    else if Fires(claims, task, r, live, p) then ActionRows(r, p.outcome, |r.actions|)
    else [Row(r.id, r.event, "", SkippedDedup)]
  }

  function AllRows(claims: set<string>, task: Task, rules: seq<Rule>, live: EvalContext, p: Ports): seq<Row> {
    if rules == [] then []
    else
      AllRows(claims, task, rules[..|rules| - 1], live, p) + RowsOfRule(claims, task, rules[|rules| - 1], live, p)
  }

  /** Distinct rules log in order, each what happened to it. */
  lemma {:induction false} RowsInOrder(st: Store, task: Task, rules: seq<Rule>, live: EvalContext, p: Ports)
    requires DistinctIds(rules)
    ensures HandleAll(st, task, rules, live, p).logs == st.logs + AllRows(st.claims, task, rules, live, p)
  {
    hide MatchesAll, DedupKey, ActionRuns, ActionRows;
    if rules != [] {
      LastIsNew(rules);
      RowsInOrder(st, task, rules[..|rules| - 1], live, p);
      LastUnclaimed(st, task, rules, live, p);
    }
  }

  // ---- whole evaluations ---------------------------------------------------------

  /** The same answers, each listing in any order. */
  ghost predicate SameListings(p: Ports, q: Ports) {
    && p.(rulesFor := q.rulesFor) == q
    && forall e :: SameRules(p.rulesFor(e), q.rulesFor(e))
  }

  predicate SameRules(a: Result<seq<Rule>, Failure>, b: Result<seq<Rule>, Failure>) {
    if a.Ok? && b.Ok? then multiset(a.value) == multiset(b.value) else a == b
  }

  lemma {:induction false} CandidatesPermute(events: seq<RuleEvent>, p: Ports, q: Ports)
    requires SameListings(p, q)
    ensures SameRules(Candidates(events, p), Candidates(events, q))
  {
    if events != [] {
      CandidatesPermute(events[..|events| - 1], p, q);
      assert SameRules(p.rulesFor(events[|events| - 1]), q.rulesFor(events[|events| - 1]));
    }
  }

  ghost predicate DistinctCandidates(task: Task, p: Ports) {
    var listed := Candidates(ApplicableEvents(task), p);
    listed.Ok? ==> DistinctIds(listed.value)
  }

  /** An evaluation does the same, to the last row, whatever order the repository
      returned each event's rules in. */
  lemma EvaluationIsOrderFree(st: Store, task: Task, p: Ports, q: Ports)
    requires SameListings(p, q) && DistinctCandidates(task, p)
    ensures Evaluated(st, task, p) == Evaluated(st, task, q)
  {
    var a, b := Candidates(ApplicableEvents(task), p), Candidates(ApplicableEvents(task), q);
    CandidatesPermute(ApplicableEvents(task), p, q);
    hide MatchesAll, Sort, Matching, Candidates, ApplicableEvents, Handle;
    if a.Ok? && b.Ok? {
      assert a.value == [] <==> b.value == [] by {
        assert |multiset(a.value)| == |a.value| && |multiset(b.value)| == |b.value|;
      }
      if p.first.Ok? {
        OrderIndependent(a.value, b.value, p.first.value);
      }
      forall rules, live ensures HandleAll(st, task, rules, live, p) == HandleAll(st, task, rules, live, q) {
        ListingsNotHandled(st, task, rules, live, p, q);
      }
    }
  }

  lemma {:induction false} ListingsNotHandled(
    st: Store, task: Task, rules: seq<Rule>, live: EvalContext, p: Ports, q: Ports)
    requires p.(rulesFor := q.rulesFor) == q
    ensures HandleAll(st, task, rules, live, p) == HandleAll(st, task, rules, live, q)
  {
    hide MatchesAll, DedupKey;
    if rules != [] {
      ListingsNotHandled(st, task, rules[..|rules| - 1], live, p, q);
    }
  }

  /** A live task whose ports answer runs exactly the actions of its matched,
      still-matching, newly claimed rules in order; any other evaluation changes nothing. */
  lemma EvaluationRuns(st: Store, task: Task, p: Ports)
    requires DistinctCandidates(task, p)
    ensures var listed := Candidates(ApplicableEvents(task), p);
      var (st', err) := Evaluated(st, task, p);
      if !Suppressed(task) && listed.Ok? && p.first.Ok? && p.live.Ok? then
        err.None?
        && st'.ran == st.ran + Runs(Firing(st.claims, task, Matched(listed.value, p.first.value), p.live.value, p))
      else st' == st
  {
    var listed := Candidates(ApplicableEvents(task), p);
    hide MatchesAll, Candidates, ApplicableEvents, Handle, Fires, DistinctIds, StrictlyOrdered;
    if listed.Ok? && p.first.Ok? && p.live.Ok? {
      MatchedIsOrdered(listed.value, p.first.value);
      NothingFires(st.claims, task, p.live.value, p);
      RunsInOrder(st, task, Matched(listed.value, p.first.value), p.live.value, p);
      assert listed.value == [] ==> Matched(listed.value, p.first.value) == [];
    }
  }

  /** An evaluation is retried exactly when a port it needed failed other than by a
      missing conversation. */
  lemma RetriedIff(st: Store, task: Task, p: Ports)
    ensures var listed := Candidates(ApplicableEvents(task), p);
      var err := Evaluated(st, task, p).1;
      && (Suppressed(task) ==> err.None?)
      && (!Suppressed(task) && listed.Err? ==> err == Some(listed.error))
      && (!Suppressed(task) && listed.Ok? ==>
            (err.Some? <==>
              && listed.value != []
              && (p.first == Err(Other)
                  || (p.first.Ok? && Matched(listed.value, p.first.value) != [] && p.live == Err(Other)))))
  {
    hide MatchesAll, Candidates, ApplicableEvents, HandleAll, Sort, Matching;
  }

  lemma {:induction false} ListingFailsIff(events: seq<RuleEvent>, p: Ports)
    ensures Candidates(events, p).Err? <==> exists i :: 0 <= i < |events| && p.rulesFor(events[i]).Err?
    ensures forall r :: Candidates(events, p).Ok? ==>
      (r in Candidates(events, p).value <==> exists i :: 0 <= i < |events| && r in p.rulesFor(events[i]).value)
  {
    if events != [] {
      var n := |events| - 1;
      ListingFailsIff(events[..n], p);
      var last := p.rulesFor(events[n]);
      assert forall i :: 0 <= i < n ==> events[..n][i] == events[i];
    }
  }

  // ---- other events do not stand in the way ------------------------------------------

  /** Not the same event of the same tenant. */
  predicate OtherEvent(a: Task, b: Task) { a.tenant != b.tenant || a.eventId != b.eventId }

  predicate PlainIds(tenant: string, rules: seq<Rule>) {
    ':' !in tenant && forall r :: r in rules ==> ':' !in r.id
  }

  /** One evaluation and the answers it got. */
  datatype Past = Past(task: Task, ports: Ports)

  /** The store after a history of evaluations, retries included. */
  function Since(st: Store, history: seq<Past>): Store {
    if history == [] then st
    else
      var last := history[|history| - 1];
      Evaluated(Since(st, history[..|history| - 1]), last.task, last.ports).0
  }

  ghost predicate PlainPast(past: Past) {
    var listed := Candidates(ApplicableEvents(past.task), past.ports);
    ':' !in past.task.tenant && (listed.Ok? ==> PlainIds(past.task.tenant, listed.value))
  }

  /** Evaluating one event claims no firing of another. */
  lemma SparesOtherEvents(st: Store, past: Past, task: Task, rule: string)
    requires OtherEvent(past.task, task) && PlainPast(past) && ':' !in task.tenant && ':' !in rule
    ensures var key := DedupKey(task.tenant, rule, task.eventId);
      key in Evaluated(st, past.task, past.ports).0.claims <==> key in st.claims
  {
    var key := DedupKey(task.tenant, rule, task.eventId);
    var other, p := past.task, past.ports;
    var listed := Candidates(ApplicableEvents(other), p);
    hide MatchesAll, DedupKey, Candidates, ApplicableEvents, HandleAll, Sort, Matching, Suppressed;
    if listed.Ok? && p.first.Ok? && p.live.Ok? {
      var matched := Sort(Matching(listed.value, p.first.value));
      MatchedAreListed(listed.value, p.first.value);
      ClaimsOwnFirings(st, other, matched, p.live.value, p, key);
      forall r | r in matched ensures key != DedupKey(other.tenant, r.id, other.eventId) {
        FiringsAreApart(task.tenant, rule, task.eventId, other.tenant, r.id, other.eventId);
      }
    }
  }

  lemma {:induction false} InsertMembers(r: Rule, rules: seq<Rule>)
    ensures forall x :: x in Insert(r, rules) <==> x == r || x in rules
  {
    hide Before;
    if rules != [] {
      assert rules == [rules[0]] + rules[1..];
      InsertMembers(r, rules[1..]);
    }
  }

  lemma {:induction false} SortMembers(rules: seq<Rule>)
    ensures forall x :: x in Sort(rules) <==> x in rules
  {
    hide Insert;
    if rules != [] {
      assert rules == [rules[0]] + rules[1..];
      SortMembers(rules[1..]);
      InsertMembers(rules[0], Sort(rules[1..]));
    }
  }

  lemma MatchedAreListed(rules: seq<Rule>, ec: EvalContext)
    ensures forall r :: r in Sort(Matching(rules, ec)) ==> r in rules
  {
    SortMembers(Matching(rules, ec));
    MatchingListed(rules, ec);
  }

  lemma {:induction false} MatchingListed(rules: seq<Rule>, ec: EvalContext)
    ensures forall r :: r in Matching(rules, ec) ==> r in rules
  {
    hide MatchesAll;
    if rules != [] {
      MatchingListed(rules[..|rules| - 1], ec);
      assert rules == rules[..|rules| - 1] + [rules[|rules| - 1]];
    }
  }

  lemma {:induction false} HistorySpares(history: seq<Past>, task: Task, rule: string)
    requires forall i :: 0 <= i < |history| ==> OtherEvent(history[i].task, task) && PlainPast(history[i])
    requires ':' !in task.tenant && ':' !in rule
    ensures DedupKey(task.tenant, rule, task.eventId) !in Since(Store({}, [], []), history).claims
  {
    hide DedupKey, Evaluated, PlainPast, OtherEvent;
    if history != [] {
      var n := |history| - 1;
      HistorySpares(history[..n], task, rule);
      SparesOtherEvents(Since(Store({}, [], []), history[..n]), history[n], task, rule);
    }
  }

  lemma {:induction false} UnclaimedFire(
    claims: set<string>, task: Task, rules: seq<Rule>, live: EvalContext, p: Ports)
    requires forall r :: r in rules ==> DedupKey(task.tenant, r.id, task.eventId) !in claims
    ensures Firing(claims, task, rules, live, p) == Matching(rules, live)
  {
    hide MatchesAll, DedupKey;
    if rules != [] {
      assert rules[|rules| - 1] in rules;
      UnclaimedFire(claims, task, rules[..|rules| - 1], live, p);
    }
  }

  /** After any history of other events, however many of them the same rules fired for,
      a new event's evaluation runs every matched rule that still matches, in order. */
  lemma NewEventsFire(history: seq<Past>, task: Task, p: Ports)
    requires forall i :: 0 <= i < |history| ==> OtherEvent(history[i].task, task) && PlainPast(history[i])
    requires DistinctCandidates(task, p) && PlainPast(Past(task, p)) && !Suppressed(task)
    requires Candidates(ApplicableEvents(task), p).Ok? && p.first.Ok? && p.live.Ok?
    ensures var st := Since(Store({}, [], []), history);
      var matched := Matched(Candidates(ApplicableEvents(task), p).value, p.first.value);
      Evaluated(st, task, p).0.ran == st.ran + Runs(Matching(matched, p.live.value))
  {
    var st := Since(Store({}, [], []), history);
    var listed := Candidates(ApplicableEvents(task), p).value;
    var matched := Matched(listed, p.first.value);
    MatchedAreListed(listed, p.first.value);
    hide MatchesAll, DedupKey, Candidates, ApplicableEvents, Evaluated, Suppressed, OtherEvent, Sort, Matching;
    EvaluationRuns(st, task, p);
    forall r | r in matched ensures DedupKey(task.tenant, r.id, task.eventId) !in st.claims {
      HistorySpares(history, task, r.id);
    }
    UnclaimedFire(st.claims, task, matched, p.live.value, p);
  }

  // ---- suppression ---------------------------------------------------------------

  /** Whatever an action emits is marked as automation, one level deeper, and is never
      evaluated: automation cannot feed itself. */
  lemma AutomationNeverFeedsItself(task: Task, e: Task, st: Store, p: Ports)
    requires Emits(task, e)
    ensures e.automation && e.depth == task.depth + 1 && Evaluated(st, e, p) == (st, None)
  {
    EmittedIsTagged(task, e);
  }

  /** The message actions alone consult the budget, and a tripped one never reaches
      the conversation. */
  lemma BudgetGuardsMessages(ctx: Ctx, depth: int, kind: ActionKind, budget: Option<bool>, port: ActionError)
    ensures var ran := RunAction(ctx, depth, kind, budget, port);
      ran.called.None? <==>
        (kind == Unsupported || (kind in {SendMessage, SendAttachment, SendInteractive} && budget == Some(false)))
    ensures var ran := RunAction(ctx, depth, kind, budget, port);
      if ran.called.Some? then ran.called == Some(Ctx(true, depth + 1)) && ran.error == port
      else ran.error == if kind == Unsupported then Failed else BudgetExceeded
  {
  }
}
