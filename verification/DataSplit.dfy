/** The rest of the merge: shuffling, deduplicating, capping, and splitting whole leakage groups into
    training and validation rows. */
module DataSplit {
  import opened Util
  import opened LeakageGroups

  /** `random.shuffle`: some permutation, nothing more is known about it. */
  method Shuffle<T(==)>(s: seq<T>) returns (t: seq<T>)
    ensures multiset(t) == multiset(s)
  {
    assert multiset(s) == multiset(s);     // `s` itself is one
    t :| multiset(t) == multiset(s);
  }

  // ----- deduplication -----

  function Conversations(rows: seq<Row>): set<seq<Message>> {
    set row | row in rows :: row.messages
  }

  /** The first row of each conversation. */
  function FirstRows(rows: seq<Row>): seq<Row> {
    if rows == [] then []
    else
      var kept, last := FirstRows(rows[..|rows| - 1]), rows[|rows| - 1];
      if last.messages in Conversations(kept) then kept else kept + [last]
  }

  ghost predicate DistinctRows(rows: seq<Row>) {
    forall i, j :: 0 <= i < j < |rows| ==> rows[i].messages != rows[j].messages
  }

  lemma {:induction false} FirstRowsMeaning(rows: seq<Row>)
    ensures DistinctRows(FirstRows(rows)) && Conversations(FirstRows(rows)) == Conversations(rows)
    ensures multiset(FirstRows(rows)) <= multiset(rows)
  {
    if rows != [] {
      var init, last := rows[..|rows| - 1], rows[|rows| - 1];
      FirstRowsMeaning(init);
      assert rows == init + [last];
      assert Conversations(rows) == Conversations(init) + {last.messages};
      var kept := FirstRows(init);
      assert Conversations(kept + [last]) == Conversations(kept) + {last.messages};
      if last.messages !in Conversations(kept) {
        forall i | 0 <= i < |kept| ensures kept[i].messages != last.messages {
          assert kept[i] in kept;
        }
      }
    }
  }

  lemma {:induction false} FirstRowsPrefix(a: seq<Row>, b: seq<Row>)
    ensures FirstRows(a) <= FirstRows(a + b)
  {
    if b == [] {
      assert a + b == a;
    } else {
      FirstRowsPrefix(a, b[..|b| - 1]);
      assert (a + b)[..|a + b| - 1] == a + b[..|b| - 1];
    }
  }

  /** Row `i` is the first of its conversation. */
  ghost predicate FirstOfAll(rows: seq<Row>, i: nat) {
    i < |rows| && forall j :: 0 <= j < i ==> rows[j].messages != rows[i].messages
  }

  lemma FirstInInit(rows: seq<Row>, i: nat)
    requires i < |rows| - 1
    ensures FirstOfAll(rows, i) <==> FirstOfAll(rows[..|rows| - 1], i)
  {
    assert forall j :: 0 <= j <= i ==> rows[..|rows| - 1][j] == rows[j];
  }

  /** What is kept is each conversation's first row, with whatever else that row carries. */
  lemma {:induction false} FirstRowsAreKept(rows: seq<Row>, i: nat)
    requires FirstOfAll(rows, i)
    ensures rows[i] in FirstRows(rows)
  {
    var init, last := rows[..|rows| - 1], rows[|rows| - 1];
    if i < |init| {
      FirstInInit(rows, i);
      FirstRowsAreKept(init, i);
    } else {
      FirstRowsMeaning(init);
      assert last.messages !in Conversations(init);
    }
  }

  /** And nothing else is. */
  lemma {:induction false} KeptRowsAreFirst(rows: seq<Row>, row: Row) returns (i: nat)
    requires row in FirstRows(rows)
    ensures FirstOfAll(rows, i) && rows[i] == row
  {
    var init, last := rows[..|rows| - 1], rows[|rows| - 1];
    if row in FirstRows(init) {
      i := KeptRowsAreFirst(init, row);
      FirstInInit(rows, i);
    } else {
      i := |init|;
      FirstRowsMeaning(init);
      assert forall j :: 0 <= j < |init| ==> init[j].messages in Conversations(init);
    }
  }

  /** The `seen`/`deduped` loop. */
  method Dedup(rows: seq<Row>) returns (deduped: seq<Row>)
    ensures deduped == FirstRows(rows)
  {
    deduped := [];
    var seen: set<seq<Message>> := {};
    var i := 0;
    while i < |rows|
      invariant 0 <= i <= |rows|
      invariant deduped == FirstRows(rows[..i]) && seen == Conversations(deduped)
    {
      var fp := rows[i].messages;
      assert rows[..i + 1][..i] == rows[..i];
      if fp !in seen {
        assert Conversations(deduped + [rows[i]]) == Conversations(deduped) + {fp};
        seen := seen + {fp};
        deduped := deduped + [rows[i]];
      }
      i := i + 1;
    }
    assert rows[..i] == rows;
  }

  function Capped(rows: seq<Row>, cap: nat): seq<Row> {
    if |rows| > cap then rows[..cap] else rows
  }

  /** Capping the deduplicated rows keeps a row from outside `priority` only if every conversation
      in `priority` is kept too. */
  lemma CapPrefersPriority(priority: seq<Row>, others: seq<Row>, cap: nat, row: Row)
    requires row in Capped(FirstRows(priority + others), cap) && row.messages !in Conversations(priority)
    ensures Conversations(priority) <= Conversations(Capped(FirstRows(priority + others), cap))
  {
    var all := FirstRows(priority + others);
    var kept := Capped(all, cap);
    var first := FirstRows(priority);
    FirstRowsMeaning(priority);
    FirstRowsPrefix(priority, others);
    assert row in first ==> row.messages in Conversations(first);
    PrefixKept(first, all, cap, row);
    forall c | c in Conversations(first) ensures c in Conversations(kept) {
      var r :| r in first && r.messages == c;
      assert r in kept;
    }
  }

  /** Capping keeps a row past a prefix only together with the prefix. */
  lemma PrefixKept(first: seq<Row>, all: seq<Row>, cap: nat, row: Row)
    requires first <= all && row in Capped(all, cap)
    ensures row in first || first <= Capped(all, cap)
  {
    var kept := Capped(all, cap);
    if |kept| <= |first| {
      assert kept == first[..|kept|];
    } else {
      assert first == kept[..|first|];
    }
  }

  // ----- group-wise split -----

  /** No prompt side and no answer side occurs in both. */
  ghost predicate Unrelated(a: seq<Row>, b: seq<Row>) {
    forall x, y :: x in a && y in b ==> !Related(x, y)
  }

  /** The groups are pairwise different and pairwise unrelated. */
  ghost predicate Apart(groups: seq<seq<Row>>) {
    Distinct(groups) && forall g, h :: g in groups && h in groups && g != h ==> Unrelated(g, h)
  }

  lemma {:induction false} DistinctCounts<T>(s: seq<T>)
    ensures Distinct(s) <==> forall x :: multiset(s)[x] <= 1
  {
    if s != [] {
      var init, last := s[..|s| - 1], s[|s| - 1];
      DistinctCounts(init);
      assert s == init + [last];
      assert forall x :: multiset(s)[x] == multiset(init)[x] + (if x == last then 1 else 0);
      if last in init {
        var i :| 0 <= i < |init| && init[i] == last;
        assert s[i] == s[|s| - 1];
        assert multiset(s)[last] > 1;
      } else {
        assert multiset(init)[last] == 0;
        assert Distinct(init) <==> Distinct(s);
      }
    }
  }

  lemma ApartShuffled(groups: seq<seq<Row>>, shuffled: seq<seq<Row>>)
    requires Apart(groups) && multiset(shuffled) == multiset(groups)
    ensures Apart(shuffled)
  {
    DistinctCounts(groups);
    DistinctCounts(shuffled);
    forall g | g in shuffled ensures g in groups {
      assert g in multiset(shuffled);
    }
  }

  lemma ComponentsApart(rows: seq<Row>, groups: seq<seq<Row>>, members: seq<seq<nat>>, groupOf: seq<nat>)
    requires Components(rows, groups, members, groupOf) && DistinctRows(rows)
    ensures Apart(groups)
  {
    forall g, h | 0 <= g < |groups| && 0 <= h < |groups| && g != h
      ensures groups[g] != groups[h] && Unrelated(groups[g], groups[h])
    {
      assert Group(rows, |rows|, groups[g], members[g]) && Group(rows, |rows|, groups[h], members[h]);
      forall a, b | 0 <= a < |groups[g]| && 0 <= b < |groups[h]|
        ensures groups[g][a] != groups[h][b] && !Related(groups[g][a], groups[h][b])
      {
        var i, j := members[g][a], members[h][b];
        assert i in members[g] && j in members[h];
        assert groupOf[i] == g && groupOf[j] == h;
        if Related(rows[i], rows[j]) { RelatedLinks(rows, i, j); }
      }
      assert groups[g][0] != groups[h][0];
    }
  }

  ghost function Largest(groups: seq<seq<Row>>): nat {
    if groups == [] then 0
    else
      var rest := Largest(groups[1..]);
      if |groups[0]| > rest then |groups[0]| else rest
  }

  lemma {:induction false} LargestBounds(groups: seq<seq<Row>>, g: seq<Row>)
    requires g in groups
    ensures |g| <= Largest(groups)
  {
    if groups[0] != g { LargestBounds(groups[1..], g); }
  }

  lemma {:induction false} InFlat<T>(ss: seq<seq<T>>, x: T) returns (k: nat)
    requires x in Flat(ss)
    ensures k < |ss| && x in ss[k]
  {
    if x in ss[0] {
      k := 0;
    } else {
      k := InFlat(ss[1..], x);
      k := k + 1;
    }
  }

  lemma PullOut<T>(ss: seq<T>, k: nat)
    requires k < |ss|
    ensures multiset(ss) == multiset{ss[k]} + multiset(ss[..k] + ss[k + 1..])
  {
    assert ss == (ss[..k] + [ss[k]]) + ss[k + 1..];
  }

  lemma PullOutFlat<T>(a: seq<seq<T>>, m: seq<T>, b: seq<seq<T>>)
    ensures multiset(Flat((a + [m]) + b)) == multiset(m) + multiset(Flat(a + b))
  {
    FlatAround(a, m, b);
    MiddleFirst(Flat(a), m, Flat(b));
  }

  lemma FlatAround<T>(a: seq<seq<T>>, m: seq<T>, b: seq<seq<T>>)
    ensures Flat((a + [m]) + b) == (Flat(a) + m) + Flat(b)
    ensures Flat(a + b) == Flat(a) + Flat(b)
  {
    FlatSnoc(a, m);
    FlatConcat(a + [m], b);
    FlatConcat(a, b);
  }

  lemma MiddleFirst<T>(a: seq<T>, m: seq<T>, b: seq<T>)
    ensures multiset((a + m) + b) == multiset(m) + multiset(a + b)
  {
  }

  lemma Cancel<T>(x: multiset<T>, a: multiset<T>, b: multiset<T>)
    requires x + a == x + b
    ensures a == b
  {
    assert a == (x + a) - x && b == (x + b) - x;
  }

  lemma FindIn<T>(ss: seq<T>, x: T) returns (k: nat)
    requires multiset(ss)[x] > 0
    ensures k < |ss| && ss[k] == x
  {
    assert x in multiset(ss);
    k :| k < |ss| && ss[k] == x;
  }

  lemma {:induction false} FlatMultiset<T>(a: seq<seq<T>>, b: seq<seq<T>>)
    requires multiset(a) == multiset(b)
    ensures multiset(Flat(a)) == multiset(Flat(b))
    decreases |a|
  {
    assert |a| == |multiset(a)| == |multiset(b)| == |b|;
    if a != [] {
      var k := FindIn(b, a[0]);
      var ra, rb := PullBoth(a, b, k);
      FlatMultiset(ra, rb);
    }
  }

  /** One list taken out of each, the same one; what is left is still a permutation. */
  lemma PullBoth<T>(a: seq<seq<T>>, b: seq<seq<T>>, k: nat) returns (ra: seq<seq<T>>, rb: seq<seq<T>>)
    requires multiset(a) == multiset(b) && a != [] && k < |b| && a[0] == b[k]
    ensures |ra| < |a| && multiset(ra) == multiset(rb)
    ensures multiset(Flat(a)) == multiset(b[k]) + multiset(Flat(ra))
    ensures multiset(Flat(b)) == multiset(b[k]) + multiset(Flat(rb))
  {
    ra, rb := a[1..], b[..k] + b[k + 1..];
    RestPermuted(a, b, k);
    PullOutFlat(b[..k], b[k], b[k + 1..]);
    assert b == (b[..k] + [b[k]]) + b[k + 1..];
  }

  lemma RestPermuted<T>(a: seq<T>, b: seq<T>, k: nat)
    requires multiset(a) == multiset(b) && a != [] && k < |b| && a[0] == b[k]
    ensures multiset(a[1..]) == multiset(b[..k] + b[k + 1..])
  {
    assert a == [a[0]] + a[1..];
    PullOut(b, k);
    Cancel(multiset{a[0]}, multiset(a[1..]), multiset(b[..k] + b[k + 1..]));
  }

  /** The split loop: whole groups go to validation until it has `target` rows. */
  method SplitGroups(groups: seq<seq<Row>>, target: nat) returns (train: seq<Row>, valid: seq<Row>, ghost k: nat)
    ensures k <= |groups| && valid == Flat(groups[..k]) && train == Flat(groups[k..])
    ensures k < |groups| ==> |valid| >= target
    ensures k > 0 ==> |valid| < target + |groups[k - 1]|
    ensures k == 0 ==> valid == []
    ensures k > 0 ==> |Flat(groups[..k - 1])| < target
    ensures valid + train == Flat(groups) && (train != [] ==> |valid| >= target)
  {
    train, valid, k := [], [], 0;
    var i := 0;
    while i < |groups|
      invariant 0 <= i <= |groups| && k <= i
      invariant valid == Flat(groups[..k]) && train == Flat(groups[k..i])
      invariant k < i ==> |valid| >= target
      invariant k > 0 ==> |valid| < target + |groups[k - 1]| && |Flat(groups[..k - 1])| < target
      invariant k == 0 ==> valid == []
    {
      if |valid| < target {
        assert k == i && groups[..k + 1] == groups[..k] + [groups[k]];
        FlatSnoc(groups[..k], groups[k]);
        valid := valid + groups[i];
        k := k + 1;
        assert groups[k..i + 1] == [] && train == [];
      } else {
        assert groups[k..i + 1] == groups[k..i] + [groups[i]];
        FlatSnoc(groups[k..i], groups[i]);
        train := train + groups[i];
      }
      i := i + 1;
    }
    assert groups[k..i] == groups[k..];
    assert groups == groups[..k] + groups[k..];
    FlatConcat(groups[..k], groups[k..]);
  }

  /** Cutting unrelated groups anywhere leaves two unrelated sets of rows. */
  lemma CutLeaksNothing(groups: seq<seq<Row>>, k: nat)
    requires Apart(groups) && k <= |groups|
    ensures Unrelated(Flat(groups[k..]), Flat(groups[..k]))
  {
    forall x, y | x in Flat(groups[k..]) && y in Flat(groups[..k]) ensures !Related(x, y) {
      var i := InFlat(groups[k..], x);
      var j := InFlat(groups[..k], y);
      assert groups[k + i] != groups[j];
      assert groups[k + i] in groups && groups[j] in groups;
    }
  }

  /** Python's `int`: truncation toward zero. */
  function Truncated(x: real): int {
    if x >= 0.0 then x.Floor else -((-x).Floor)
  }

  function ValidTarget(n: nat, fraction: real): (t: nat)
    ensures t >= 1
    ensures n as real * fraction >= 1.0 ==> t as real <= n as real * fraction < t as real + 1.0
    ensures n as real * fraction < 1.0 ==> t == 1
  {
    var t := Truncated(n as real * fraction);
    if t > 1 then t else 1
  }

  /** What deduplicating and capping shuffled sources keeps. */
  lemma KeptRows(priority: seq<Row>, others: seq<Row>, first: seq<Row>, second: seq<Row>, cap: nat)
    requires multiset(first) == multiset(priority) && multiset(second) == multiset(others)
    ensures var kept := Capped(FirstRows(first + second), cap);
      && DistinctRows(kept) && |kept| <= cap && multiset(kept) <= multiset(priority) + multiset(others)
      && (|kept| < cap ==> Conversations(kept) == Conversations(priority) + Conversations(others))
      && forall row :: row in kept && row.messages !in Conversations(priority) ==>
           Conversations(priority) <= Conversations(kept)
  {
    var kept := Capped(FirstRows(first + second), cap);
    FirstRowsMeaning(first + second);
    CappedRows(FirstRows(first + second), cap);
    SameConversations(first, priority);
    SameConversations(second, others);
    BothConversations(first, second);
    forall row | row in kept && row.messages !in Conversations(priority)
      ensures Conversations(priority) <= Conversations(kept)
    {
      CapPrefersPriority(first, second, cap, row);
    }
  }

  lemma CappedRows(all: seq<Row>, cap: nat)
    requires DistinctRows(all)
    ensures DistinctRows(Capped(all, cap)) && |Capped(all, cap)| <= cap && multiset(Capped(all, cap)) <= multiset(all)
    ensures |Capped(all, cap)| < cap ==> Capped(all, cap) == all
  {
    var kept := Capped(all, cap);
    assert all == kept + all[|kept|..];
  }

  lemma BothConversations(a: seq<Row>, b: seq<Row>)
    ensures Conversations(a + b) == Conversations(a) + Conversations(b)
  {
  }

  lemma SameConversations(a: seq<Row>, b: seq<Row>)
    requires multiset(a) == multiset(b)
    ensures Conversations(a) == Conversations(b)
  {
    forall row ensures row in a <==> row in b {
      assert row in multiset(a) <==> row in multiset(b);
    }
  }

  lemma UnrelatedShuffled(a: seq<Row>, b: seq<Row>, a': seq<Row>, b': seq<Row>)
    requires Unrelated(a, b) && multiset(a) == multiset(a') && multiset(b) == multiset(b')
    ensures Unrelated(a', b')
  {
    forall x, y | x in a' && y in b' ensures !Related(x, y) {
      assert x in multiset(a) && y in multiset(b);
    }
  }

  /** No prompt text and no answer text of one side is one of the other. */
  ghost predicate NothingShared(a: seq<Row>, b: seq<Row>) {
    forall x, y :: x in a && y in b ==>
      && Contents(Said(x.messages, "user")) != Contents(Said(y.messages, "user"))
      && Contents(Said(x.messages, "assistant")) != Contents(Said(y.messages, "assistant"))
  }

  lemma UnrelatedShareNothing(a: seq<Row>, b: seq<Row>)
    requires Unrelated(a, b)
    ensures NothingShared(a, b)
  {
    forall x, y | x in a && y in b ensures !Related(x, y) { }
    forall x, y { RelatedMeaning(x, y); }
  }

  /** The last group that went to validation is no larger than the largest one. */
  lemma CutSizes(groups: seq<seq<Row>>, shuffled: seq<seq<Row>>, k: nat)
    requires multiset(groups) == multiset(shuffled) && k <= |shuffled|
    ensures k > 0 ==> |shuffled[k - 1]| <= Largest(groups)
    ensures multiset(Flat(shuffled[..k])) + multiset(Flat(shuffled[k..])) == multiset(Flat(groups))
  {
    if k > 0 {
      assert shuffled[k - 1] in multiset(groups);
      LargestBounds(groups, shuffled[k - 1]);
    }
    assert shuffled == shuffled[..k] + shuffled[k..];
    FlatConcat(shuffled[..k], shuffled[k..]);
    FlatMultiset(shuffled, groups);
  }

  /** Taking whole groups in the given order, validation gets those needed to reach `target` and not
      one more, and training the rest. */
  ghost predicate CutAt(order: seq<seq<Row>>, k: nat, target: nat, train: seq<Row>, valid: seq<Row>) {
    && k <= |order|
    && multiset(valid) == multiset(Flat(order[..k])) && multiset(train) == multiset(Flat(order[k..]))
    && (k > 0 ==> |Flat(order[..k - 1])| < target)
    && (k < |order| ==> |valid| >= target)
  }

  /** Deduplicate, cap, group and split. `kept` are the deduplicated, capped rows, `groups` their
      components and `order` the shuffled groups, cut after the first `k`. */
  method Merge(priority: seq<Row>, others: seq<Row>, cap: nat, fraction: real)
    returns (train: seq<Row>, valid: seq<Row>, ghost kept: seq<Row>, ghost groups: seq<seq<Row>>,
             ghost members: seq<seq<nat>>, ghost groupOf: seq<nat>, ghost order: seq<seq<Row>>, ghost k: nat)
    ensures Components(kept, groups, members, groupOf)
    ensures multiset(order) == multiset(groups) && CutAt(order, k, ValidTarget(|kept|, fraction), train, valid)
    ensures Unrelated(train, valid) && NothingShared(train, valid)
    ensures multiset(train) + multiset(valid) == multiset(kept)
    ensures DistinctRows(kept) && |kept| <= cap && multiset(kept) <= multiset(priority) + multiset(others)
    ensures |kept| < cap ==> Conversations(kept) == Conversations(priority) + Conversations(others)
    ensures forall row :: row in kept && row.messages !in Conversations(priority) ==>
      Conversations(priority) <= Conversations(kept)
    ensures var target := ValidTarget(|kept|, fraction);
      && (|kept| >= target ==> target <= |valid| < target + Largest(groups))
      && (|kept| < target ==> train == [])
  {
    var first := Shuffle(priority);
    var second := Shuffle(others);
    var deduped := Dedup(first + second);
    KeptRows(priority, others, first, second, cap);
    if |deduped| > cap {
      deduped := deduped[..cap];
    }
    kept := deduped;
    var grouped;
    grouped, members, groupOf := GroupRows(deduped);
    groups := grouped;
    ComponentsApart(deduped, grouped, members, groupOf);
    var shuffled := Shuffle(grouped);
    order := shuffled;
    ApartShuffled(grouped, shuffled);
    var train0, valid0;
    train0, valid0, k := SplitGroups(shuffled, ValidTarget(|deduped|, fraction));
    CutLeaksNothing(shuffled, k);
    CutSizes(grouped, shuffled, k);
    train := Shuffle(train0);
    valid := Shuffle(valid0);
    UnrelatedShuffled(train0, valid0, train, valid);
    UnrelatedShareNothing(train, valid);
    assert |train| == |multiset(train)| == |train0| && |valid| == |multiset(valid)| == |valid0|;
    assert |kept| == |multiset(kept)| == |train0| + |valid0|;
  }
}
