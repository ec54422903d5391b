/** Leakage-safe grouping of training rows: union-find with path halving over shared prompts and
    shared answers. Fingerprints are hashes in the program and the hashed text itself here. */
module LeakageGroups {
  import opened Util

  /** A JSON value: a string, or any other (`null` included) by its text with keys sorted. */
  datatype Json = Text(text: string) | Other(dump: string)

  /** A message is a dictionary; `"role"` and `"content"` are keys like any other. */
  type Message = map<string, Json>

  /** A row's conversation, and whatever else it carries. */
  datatype Row = Row(messages: seq<Message>, meta: nat)

  const ROLES := ["user", "assistant"]

  /** What `role_fp` hashes: the contents said in one role, a missing content counting as the empty string. */
  function RoleContent(messages: seq<Message>, role: string): seq<Json> {
    if messages == [] then []
    else
      var rest := RoleContent(messages[1..], role);
      if !Says(messages[0], role) then rest
      else [if "content" in messages[0] then messages[0]["content"] else Text("")] + rest
  }

  predicate Says(m: Message, role: string) {
    "role" in m && m["role"] == Text(role)
  }

  lemma {:induction false} ContentConcat(a: seq<Message>, b: seq<Message>, role: string)
    ensures RoleContent(a + b, role) == RoleContent(a, role) + RoleContent(b, role)
    decreases a
  {
    if a == [] {
      assert a + b == b;
    } else {
      assert (a + b)[1..] == a[1..] + b;
      ContentConcat(a[1..], b, role);
    }
  }

  /** A message counts for the role it names and for no other, and with its content alone. */
  lemma ContentOfOne(m: Message, role: string)
    ensures !("role" in m && m["role"] == Text(role)) ==> RoleContent([m], role) == []
    ensures "role" in m && m["role"] == Text(role) ==>
              RoleContent([m], role) == [if "content" in m then m["content"] else Text("")]
  {
    assert [m][1..] == [];
  }

  /** `ms` with the messages of every other role left out. */
  function Said(ms: seq<Message>, role: string): seq<Message> {
    if ms == [] then []
    else
      var before, m := Said(ms[..|ms| - 1], role), ms[|ms| - 1];
      if "role" in m && m["role"] == Text(role) then before + [m] else before
  }

  /** The contents of some messages, in order. */
  function Contents(ms: seq<Message>): seq<Json> {
    seq(|ms|, i requires 0 <= i < |ms| => if "content" in ms[i] then ms[i]["content"] else Text(""))
  }

  /** The fingerprint of a side is the contents of its messages, whatever else is said in between. */
  lemma {:induction false} ContentIsSaid(ms: seq<Message>, role: string)
    ensures RoleContent(ms, role) == Contents(Said(ms, role))
  {
    if ms != [] {
      var before, m := ms[..|ms| - 1], ms[|ms| - 1];
      assert ms == before + [m];
      ContentIsSaid(before, role);
      ContentConcat(before, [m], role);
      ContentOfOne(m, role);
      if "role" in m && m["role"] == Text(role) {
        assert Contents(Said(before, role) + [m]) == Contents(Said(before, role)) + Contents([m]);
      }
    }
  }

  function RoleFp(row: Row, role: string): seq<Json> {
    RoleContent(row.messages, role)
  }

  /** The two rows share a prompt side or an answer side. */
  ghost predicate Related(a: Row, b: Row) {
    RoleFp(a, ROLES[0]) == RoleFp(b, ROLES[0]) || RoleFp(a, ROLES[1]) == RoleFp(b, ROLES[1])
  }

  /** Rows are related exactly when their prompts or their answers read the same. */
  lemma RelatedMeaning(a: Row, b: Row)
    ensures Related(a, b) <==>
            || Contents(Said(a.messages, "user")) == Contents(Said(b.messages, "user"))
            || Contents(Said(a.messages, "assistant")) == Contents(Said(b.messages, "assistant"))
  {
    ContentIsSaid(a.messages, "user");
    ContentIsSaid(b.messages, "user");
    ContentIsSaid(a.messages, "assistant");
    ContentIsSaid(b.messages, "assistant");
  }

  ghost predicate Chain(rows: seq<Row>, i: nat, j: nat, steps: nat)
    requires i < |rows| && j < |rows|
    decreases steps, 0
  {
    if steps == 0 then i == j
    else exists k: nat :: ChainVia(rows, i, k, j, steps)
  }

  ghost predicate ChainVia(rows: seq<Row>, i: nat, k: nat, j: nat, steps: nat)
    requires i < |rows| && j < |rows| && steps > 0
    decreases steps - 1, 1
  {
    k < |rows| && Related(rows[i], rows[k]) && Chain(rows, k, j, steps - 1)
  }

  /** A chain of rows, each sharing a side with the next, leads from row `i` to row `j`. */
  ghost predicate Linked(rows: seq<Row>, i: nat, j: nat)
    requires i < |rows| && j < |rows|
  {
    exists steps: nat :: Chain(rows, i, j, steps)
  }

  lemma {:induction false} ChainTrans(rows: seq<Row>, i: nat, j: nat, k: nat, m: nat, n: nat)
    requires i < |rows| && j < |rows| && k < |rows| && Chain(rows, i, j, m) && Chain(rows, j, k, n)
    ensures Chain(rows, i, k, m + n)
    decreases m
  {
    if m > 0 {
      var h: nat :| ChainVia(rows, i, h, j, m);
      ChainTrans(rows, h, j, k, m - 1, n);
      assert ChainVia(rows, i, h, k, m + n);
    }
  }

  lemma LinkedTrans(rows: seq<Row>, i: nat, j: nat, k: nat)
    requires i < |rows| && j < |rows| && k < |rows| && Linked(rows, i, j) && Linked(rows, j, k)
    ensures Linked(rows, i, k)
  {
    var m: nat :| Chain(rows, i, j, m);
    var n: nat :| Chain(rows, j, k, n);
    ChainTrans(rows, i, j, k, m, n);
  }

  lemma RelatedLinks(rows: seq<Row>, i: nat, j: nat)
    requires i < |rows| && j < |rows| && Related(rows[i], rows[j])
    ensures Linked(rows, i, j)
  {
    assert Chain(rows, j, j, 0) && ChainVia(rows, i, j, j, 1);
    assert Chain(rows, i, j, 1);
  }

  lemma {:induction false} ChainSym(rows: seq<Row>, i: nat, j: nat, n: nat)
    requires i < |rows| && j < |rows| && Chain(rows, i, j, n)
    ensures Linked(rows, j, i)
    decreases n
  {
    if n == 0 {
      assert Chain(rows, j, i, 0);
    } else {
      var k: nat :| ChainVia(rows, i, k, j, n);
      ChainSym(rows, k, j, n - 1);
      RelatedLinks(rows, k, i);
      LinkedTrans(rows, j, k, i);
    }
  }

  lemma LinkedSym(rows: seq<Row>, i: nat, j: nat)
    requires i < |rows| && j < |rows| && Linked(rows, i, j)
    ensures Linked(rows, j, i)
  {
    var n: nat :| Chain(rows, i, j, n);
    ChainSym(rows, i, j, n);
  }

  // ----- union-find -----

  /** After `union(left, right)`: the tree of `right` hangs below the root of `left`. */
  ghost function Merged(root: seq<nat>, left: nat, right: nat): (r: seq<nat>)
    requires left < |root| && right < |root|
    ensures |r| == |root|
  {
    seq(|root|, i requires 0 <= i < |root| => if root[i] == root[right] then root[left] else root[i])
  }

  /** `root[i]` is the root above `i`, as far as `i` and its parent can tell; `rank` grows along parents. */
  ghost predicate LabelAt(parent: seq<nat>, root: seq<nat>, rank: seq<nat>, top: nat, i: nat)
    requires i < |parent| == |root| == |rank|
  {
    && parent[i] < |parent| && root[i] < |parent| && rank[i] <= top
    && (parent[i] == i <==> root[i] == i)
    && root[parent[i]] == root[i] && root[root[i]] == root[i] && parent[root[i]] == root[i]
    && (parent[i] != i ==> rank[i] < rank[parent[i]])
  }

  ghost predicate Labels(parent: seq<nat>, root: seq<nat>, rank: seq<nat>, top: nat) {
    |parent| == |root| == |rank| && forall i :: 0 <= i < |parent| ==> LabelAt(parent, root, rank, top, i)
  }

  /** Following parents from `i` until a node that is its own parent. */
  ghost function Climb(parent: seq<nat>, root: seq<nat>, rank: seq<nat>, top: nat, i: nat): nat
    requires Labels(parent, root, rank, top) && i < |parent|
    decreases top - (if i < |rank| then rank[i] else 0)
  {
    assert LabelAt(parent, root, rank, top, i);
    if parent[i] == i then i
      else assert LabelAt(parent, root, rank, top, parent[i]); Climb(parent, root, rank, top, parent[i])
  }

  /** The labels are the roots one reaches by following parents. */
  lemma {:induction false} LabelIsRoot(parent: seq<nat>, root: seq<nat>, rank: seq<nat>, top: nat, i: nat)
    requires Labels(parent, root, rank, top) && i < |parent|
    ensures Climb(parent, root, rank, top, i) == root[i]
    decreases top - (if i < |rank| then rank[i] else 0)
  {
    assert LabelAt(parent, root, rank, top, i);
    if parent[i] != i {
      assert LabelAt(parent, root, rank, top, parent[i]);
      LabelIsRoot(parent, root, rank, top, parent[i]);
    }
  }

  lemma HalvingKeepsLabels(parent: seq<nat>, root: seq<nat>, rank: seq<nat>, top: nat, i: nat)
    requires Labels(parent, root, rank, top) && i < |parent|
    ensures parent[i] < |parent| && parent[parent[i]] < |parent|
    ensures Labels(parent[i := parent[parent[i]]], root, rank, top)
    ensures root[parent[parent[i]]] == root[i] && rank[parent[parent[i]]] <= top
    ensures parent[i] != i ==> rank[i] < rank[parent[parent[i]]]
    ensures parent[i] == i <==> root[i] == i
  {
    assert LabelAt(parent, root, rank, top, i);
    assert LabelAt(parent, root, rank, top, parent[i]);
    assert LabelAt(parent, root, rank, top, parent[parent[i]]);
    var parent' := parent[i := parent[parent[i]]];
    forall j | 0 <= j < |parent| ensures LabelAt(parent', root, rank, top, j) {
      assert LabelAt(parent, root, rank, top, j);
    }
  }

  lemma UnionKeepsLabels(parent: seq<nat>, root: seq<nat>, rank: seq<nat>, top: nat, l: nat, r: nat)
    requires Labels(parent, root, rank, top) && l < |parent| && r < |parent| && root[l] != root[r]
    ensures root[l] < |parent| && root[r] < |parent|
    ensures Labels(parent[root[r] := root[l]], Merged(root, l, r), rank[root[l] := top + 1], top + 1)
  {
    assert LabelAt(parent, root, rank, top, l) && LabelAt(parent, root, rank, top, r);
    var parent', root', rank' := parent[root[r] := root[l]], Merged(root, l, r), rank[root[l] := top + 1];
    var top' := top + 1;
    forall i | 0 <= i < |parent| ensures LabelAt(parent', root', rank', top', i) {
      assert LabelAt(parent, root, rank, top, i);
      assert LabelAt(parent, root, rank, top, parent[i]);
    }
  }

  class Forest {
    const parent: array<nat>
    ghost var root: seq<nat>
    ghost var rank: seq<nat>
    ghost var top: nat

    ghost predicate Valid()
      reads this, parent
    {
      Labels(parent[..], root, rank, top)
    }

    constructor (n: nat)
      ensures Valid() && fresh(parent) && parent.Length == n && root == seq(n, i => i)
    {
      parent := new nat[n](i => i);
      root, rank, top := seq(n, i => i), seq(n, i => 0), 0;
    }

    /** `find`: it terminates, returns the root, and changes nobody's root. */
    method Find(start: nat) returns (index: nat)
      requires Valid() && start < parent.Length
      modifies parent
      ensures Valid() && index == root[start]
    {
      index := start;
      while parent[index] != index
        invariant Valid() && index < parent.Length && root[index] == root[start]
        decreases top - rank[index]
      {
        HalvingKeepsLabels(parent[..], root, rank, top, index);
        ghost var before := parent[..];
        assert parent[index] == before[index];
        parent[index] := parent[parent[index]];
        assert parent[..] == before[index := before[before[index]]];
        index := parent[index];
      }
      HalvingKeepsLabels(parent[..], root, rank, top, index);
    }

    method Union(left: nat, right: nat)
      requires Valid() && left < parent.Length && right < parent.Length
      modifies this, parent
      ensures Valid() && root == Merged(old(root), left, right)
    {
      var leftRoot := Find(left);
      var rightRoot := Find(right);
      if leftRoot != rightRoot {
        UnionKeepsLabels(parent[..], root, rank, top, left, right);
        ghost var before := parent[..];
        parent[rightRoot] := leftRoot;
        assert parent[..] == before[rightRoot := leftRoot];
        rank, top := rank[leftRoot := top + 1], top + 1;
        root := Merged(root, left, right);
      } else {
        assert Merged(root, left, right) == root;
      }
    }
  }

  // ----- linking rows -----

  datatype Key = Key(role: string, fp: seq<Json>)

  function KeyOf(row: Row, role: string): Key {
    Key(role, RoleFp(row, role))
  }

  /** No two rows have been put together without a chain linking them. */
  ghost predicate OnlyLinked(rows: seq<Row>, root: seq<nat>) {
    |root| == |rows| && forall i :: 0 <= i < |rows| ==> root[i] < |rows| && Linked(rows, i, root[i])
  }

  ghost predicate OwnersMatch(rows: seq<Row>, owners: map<Key, nat>) {
    forall key :: key in owners ==>
      owners[key] < |rows| && key.role in ROLES && KeyOf(rows[owners[key]], key.role) == key
  }

  /** Row `i` sits with the owner of each of its first `n` keys. */
  ghost predicate Claimed(rows: seq<Row>, root: seq<nat>, owners: map<Key, nat>, i: nat, n: nat)
    requires i < |rows| == |root| && n <= |ROLES|
  {
    forall r :: 0 <= r < n ==> ClaimedBy(rows, root, owners, i, r)
  }

  ghost predicate ClaimedBy(rows: seq<Row>, root: seq<nat>, owners: map<Key, nat>, i: nat, r: nat)
    requires i < |rows| == |root| && r < |ROLES|
  {
    var key := KeyOf(rows[i], ROLES[r]);
    key in owners && owners[key] < |rows| && root[owners[key]] == root[i]
  }

  ghost predicate AllClaimed(rows: seq<Row>, root: seq<nat>, owners: map<Key, nat>, index: nat)
    requires index <= |rows| == |root|
  {
    forall i, r :: 0 <= i < index && 0 <= r < |ROLES| ==> ClaimedBy(rows, root, owners, i, r)
  }

  lemma ClaimedAfter(rows: seq<Row>, root: seq<nat>, owners: map<Key, nat>, i: nat, r: nat,
                     root': seq<nat>, owners': map<Key, nat>)
    requires i < |rows| == |root| == |root'| && r < |ROLES| && ClaimedBy(rows, root, owners, i, r)
    requires forall a, b :: 0 <= a < |root| && 0 <= b < |root| && root[a] == root[b] ==> root'[a] == root'[b]
    requires forall key :: key in owners ==> key in owners' && owners'[key] == owners[key]
    ensures ClaimedBy(rows, root', owners', i, r)
  {
  }

  lemma MergeOnlyLinked(rows: seq<Row>, root: seq<nat>, l: nat, r: nat)
    requires OnlyLinked(rows, root) && l < |rows| && r < |rows| && Related(rows[l], rows[r])
    ensures OnlyLinked(rows, Merged(root, l, r))
  {
    RelatedLinks(rows, l, r);
    LinkedSym(rows, l, r);
    LinkedSym(rows, r, root[r]);
    LinkedTrans(rows, root[r], r, l);
    LinkedTrans(rows, root[r], l, root[l]);
    forall i | 0 <= i < |rows| && root[i] == root[r] ensures Linked(rows, i, root[l]) {
      LinkedTrans(rows, i, root[r], root[l]);
    }
  }

  /** The body of the linking loop for one row and one role. */
  method Claim(rows: seq<Row>, forest: Forest, owners: map<Key, nat>, index: nat, r: nat)
    returns (owners': map<Key, nat>)
    requires forest.Valid() && forest.parent.Length == |rows| && index < |rows| && r < |ROLES|
    requires OnlyLinked(rows, forest.root) && OwnersMatch(rows, owners)
    requires AllClaimed(rows, forest.root, owners, index)
    requires Claimed(rows, forest.root, owners, index, r)
    modifies forest, forest.parent
    ensures forest.Valid() && OnlyLinked(rows, forest.root) && OwnersMatch(rows, owners')
    ensures AllClaimed(rows, forest.root, owners', index)
    ensures Claimed(rows, forest.root, owners', index, r + 1)
  {
    var key := KeyOf(rows[index], ROLES[r]);
    ghost var root := forest.root;
    owners' := owners;
    if key in owners {
      KeyRelates(rows[index], rows[owners[key]], r);
      MergeOnlyLinked(rows, root, index, owners[key]);
      forest.Union(index, owners[key]);
    } else {
      owners' := owners[key := index];
    }
    forall i, q | (0 <= i < index && 0 <= q < |ROLES|) || (i == index && 0 <= q < r)
      ensures ClaimedBy(rows, forest.root, owners', i, q)
    {
      ClaimedAfter(rows, root, owners, i, q, forest.root, owners');
    }
  }

  lemma KeyRelates(a: Row, b: Row, r: nat)
    requires r < |ROLES| && KeyOf(a, ROLES[r]) == KeyOf(b, ROLES[r])
    ensures Related(a, b)
  {
  }

  method LinkRows(rows: seq<Row>) returns (forest: Forest)
    ensures fresh(forest) && fresh(forest.parent) && forest.Valid() && forest.parent.Length == |rows|
    ensures forall i, j :: 0 <= i < |rows| && 0 <= j < |rows| ==>
      (forest.root[i] == forest.root[j] <==> Linked(rows, i, j))
  {
    forest := new Forest(|rows|);
    var owners := map[];
    forall i | 0 <= i < |rows| ensures Linked(rows, i, forest.root[i]) {
      assert Chain(rows, i, i, 0);
    }
    var index := 0;
    while index < |rows|
      invariant 0 <= index <= |rows|
      invariant forest.Valid() && OnlyLinked(rows, forest.root) && OwnersMatch(rows, owners)
      invariant AllClaimed(rows, forest.root, owners, index)
    {
      for r := 0 to |ROLES|
        invariant forest.Valid() && OnlyLinked(rows, forest.root) && OwnersMatch(rows, owners)
        invariant AllClaimed(rows, forest.root, owners, index)
        invariant Claimed(rows, forest.root, owners, index, r)
      {
        owners := Claim(rows, forest, owners, index, r);
      }
      index := index + 1;
    }
    RootsAreComponents(rows, forest.root, owners);
  }

  lemma {:induction false} ChainShareRoot(
    rows: seq<Row>, root: seq<nat>, owners: map<Key, nat>, i: nat, j: nat, steps: nat)
    requires |root| == |rows| && AllClaimed(rows, root, owners, |rows|)
    requires i < |rows| && j < |rows| && Chain(rows, i, j, steps)
    ensures root[i] == root[j]
    decreases steps
  {
    if steps > 0 {
      var k: nat :| ChainVia(rows, i, k, j, steps);
      var r := if RoleFp(rows[i], ROLES[0]) == RoleFp(rows[k], ROLES[0]) then 0 else 1;
      assert KeyOf(rows[i], ROLES[r]) == KeyOf(rows[k], ROLES[r]);
      assert ClaimedBy(rows, root, owners, i, r) && ClaimedBy(rows, root, owners, k, r);
      ChainShareRoot(rows, root, owners, k, j, steps - 1);
    }
  }

  lemma RootsAreComponents(rows: seq<Row>, root: seq<nat>, owners: map<Key, nat>)
    requires OnlyLinked(rows, root)
    requires AllClaimed(rows, root, owners, |rows|)
    ensures forall i, j :: 0 <= i < |rows| && 0 <= j < |rows| ==> (root[i] == root[j] <==> Linked(rows, i, j))
  {
    forall i, j | 0 <= i < |rows| && 0 <= j < |rows| ensures root[i] == root[j] <==> Linked(rows, i, j) {
      if root[i] == root[j] {
        LinkedSym(rows, j, root[j]);
        LinkedTrans(rows, i, root[i], j);
      }
      if Linked(rows, i, j) {
        var steps: nat :| Chain(rows, i, j, steps);
        ChainShareRoot(rows, root, owners, i, j, steps);
      }
    }
  }

  // ----- collecting groups -----

  ghost function RowsAt(rows: seq<Row>, at: seq<nat>): (r: seq<Row>)
    requires forall i :: i in at ==> i < |rows|
    ensures |r| == |at|
  {
    seq(|at|, k requires 0 <= k < |at| => assert at[k] in at; rows[at[k]])
  }

  ghost predicate Increasing(s: seq<nat>) {
    forall i, j :: 0 <= i < j < |s| ==> s[i] < s[j]
  }

  /** `groups` lists the rows numbered by `members`, in row order; `groupOf` says which group each of
      the first `n` rows is in. */
  ghost predicate Collected(
    rows: seq<Row>, n: nat, groups: seq<seq<Row>>, members: seq<seq<nat>>, groupOf: seq<nat>)
  {
    && n == |groupOf| <= |rows| && |groups| == |members|
    && (forall g :: 0 <= g < |members| ==> Group(rows, n, groups[g], members[g]))
    && (forall i :: 0 <= i < n ==> groupOf[i] < |members| && i in members[groupOf[i]])
    && (forall g, i :: 0 <= g < |members| && i in members[g] ==> i < n && groupOf[i] == g)
  }

  /** `groups` are exactly the components of the sharing relation on `rows`, every row in one of them. */
  ghost predicate Components(rows: seq<Row>, groups: seq<seq<Row>>, members: seq<seq<nat>>, groupOf: seq<nat>) {
    && Collected(rows, |rows|, groups, members, groupOf)
    && forall i, j :: 0 <= i < |rows| && 0 <= j < |rows| ==> (groupOf[i] == groupOf[j] <==> Linked(rows, i, j))
  }

  ghost predicate Group(rows: seq<Row>, n: nat, group: seq<Row>, at: seq<nat>) {
    && at != [] && Increasing(at) && (forall i :: i in at ==> i < n <= |rows|)
    && group == RowsAt(rows, at)
  }

  lemma GroupGrows(rows: seq<Row>, n: nat, group: seq<Row>, at: seq<nat>)
    requires n < |rows| && Group(rows, n, group, at)
    ensures Group(rows, n + 1, group, at) && Group(rows, n + 1, group + [rows[n]], at + [n])
  {
    assert forall k :: 0 <= k < |at| ==> at[k] in at;
  }

  /** `x` appended to list `g`, which is a new one if `g` is the number of lists. */
  function Appended<T>(ss: seq<seq<T>>, g: nat, x: T): seq<seq<T>> {
    if g < |ss| then ss[g := ss[g] + [x]] else ss + [[x]]
  }

  lemma AppendedFlat<T>(ss: seq<seq<T>>, g: nat, x: T)
    ensures multiset(Flat(Appended(ss, g, x))) == multiset(Flat(ss)) + multiset{x}
  {
    if g < |ss| { FlatUpdate(ss, g, x); } else { FlatSnoc(ss, [x]); }
  }

  lemma {:induction false} FlatUpdate<T>(ss: seq<seq<T>>, g: nat, x: T)
    requires g < |ss|
    ensures multiset(Flat(ss[g := ss[g] + [x]])) == multiset(Flat(ss)) + multiset{x}
    decreases ss
  {
    var ss' := ss[g := ss[g] + [x]];
    if g == 0 {
      assert ss'[1..] == ss[1..];
    } else {
      assert ss'[1..] == ss[1..][g - 1 := ss[1..][g - 1] + [x]];
      FlatUpdate(ss[1..], g - 1, x);
    }
  }

  /** One more row joins group `g`. */
  lemma CollectOne(rows: seq<Row>, groups: seq<seq<Row>>, members: seq<seq<nat>>, groupOf: seq<nat>, g: nat)
    requires |groupOf| < |rows| && Collected(rows, |groupOf|, groups, members, groupOf) && g <= |groups|
    ensures Collected(rows, |groupOf| + 1, Appended(groups, g, rows[|groupOf|]),
                      Appended(members, g, |groupOf|), groupOf + [g])
  {
    var n := |groupOf|;
    var groups', members' := Appended(groups, g, rows[n]), Appended(members, g, n);
    forall h | 0 <= h < |members'| ensures Group(rows, n + 1, groups'[h], members'[h]) {
      if h < |groups| {
        assert Group(rows, n, groups[h], members[h]);
        GroupGrows(rows, n, groups[h], members[h]);
      }
    }
  }

  /** `leakage_groups`: the groups are exactly the components of the sharing relation, every row is in
      exactly one of them, once, and nothing is added or lost. */
  method GroupRows(rows: seq<Row>)
    returns (groups: seq<seq<Row>>, ghost members: seq<seq<nat>>, ghost groupOf: seq<nat>)
    ensures Components(rows, groups, members, groupOf)
    ensures multiset(Flat(groups)) == multiset(rows)
    ensures SidesTogether(rows, groupOf)
  {
    var forest := LinkRows(rows);
    ghost var root := forest.root;
    groups, members, groupOf := [], [], [];
    var slot: map<nat, nat> := map[];
    var index := 0;
    while index < |rows|
      invariant 0 <= index <= |rows| && forest.Valid() && forest.root == root && forest.parent.Length == |rows|
      invariant Collected(rows, index, groups, members, groupOf) && Slotted(root, slot, |groups|, groupOf)
      invariant multiset(Flat(groups)) == multiset(rows[..index])
    {
      var r := forest.Find(index);
      groups, slot, members, groupOf := Place(rows, index, root, groups, slot, r, members, groupOf);
      index := index + 1;
    }
    assert rows[..index] == rows;
    assert forall i :: 0 <= i < |rows| ==> root[i] in slot && groupOf[i] == slot[root[i]];
    LinkedTogether(rows, groups, members, groupOf);
  }

  /** The two rows have the same user messages, or the same assistant messages. */
  ghost predicate SharesSide(a: Row, b: Row) {
    Said(a.messages, "user") == Said(b.messages, "user") || Said(a.messages, "assistant") == Said(b.messages, "assistant")
  }

  /** Rows that share a side are in one group, whatever else they say. */
  ghost predicate SidesTogether(rows: seq<Row>, groupOf: seq<nat>) {
    && |groupOf| == |rows|
    && forall i, j :: 0 <= i < |rows| && 0 <= j < |rows| && SharesSide(rows[i], rows[j]) ==> groupOf[i] == groupOf[j]
  }

  lemma LinkedTogether(rows: seq<Row>, groups: seq<seq<Row>>, members: seq<seq<nat>>, groupOf: seq<nat>)
    requires Components(rows, groups, members, groupOf)
    ensures SidesTogether(rows, groupOf)
  {
    forall i, j | 0 <= i < |rows| && 0 <= j < |rows| && SharesSide(rows[i], rows[j])
      ensures groupOf[i] == groupOf[j]
    {
      RelatedMeaning(rows[i], rows[j]);
      RelatedLinks(rows, i, j);
    }
  }

  /** `slot` numbers the roots met so far, in the order they were met. */
  ghost predicate Slotted(root: seq<nat>, slot: map<nat, nat>, count: nat, groupOf: seq<nat>) {
    && |groupOf| <= |root|
    && (forall r :: r in slot ==> slot[r] < count)
    && (forall r, q :: r in slot && q in slot && slot[r] == slot[q] ==> r == q)
    && (forall i :: 0 <= i < |groupOf| ==> root[i] in slot && groupOf[i] == slot[root[i]])
  }

  lemma SlotOne(root: seq<nat>, slot: map<nat, nat>, count: nat, groupOf: seq<nat>)
    requires |groupOf| < |root| && Slotted(root, slot, count, groupOf)
    ensures var r := root[|groupOf|];
      if r in slot then Slotted(root, slot, count, groupOf + [slot[r]])
      else Slotted(root, slot[r := count], count + 1, groupOf + [count])
  {
  }

  /** `groups.setdefault(r, []).append(row)` for row `n`, whose root is `r`. */
  method Place(rows: seq<Row>, n: nat, ghost root: seq<nat>, groups: seq<seq<Row>>, slot: map<nat, nat>, r: nat,
               ghost members: seq<seq<nat>>, ghost groupOf: seq<nat>)
    returns (groups': seq<seq<Row>>, slot': map<nat, nat>, ghost members': seq<seq<nat>>, ghost groupOf': seq<nat>)
    requires n == |groupOf| < |rows| == |root| && r == root[n]
    requires Collected(rows, n, groups, members, groupOf) && Slotted(root, slot, |groups|, groupOf)
    requires multiset(Flat(groups)) == multiset(rows[..n])
    ensures Collected(rows, n + 1, groups', members', groupOf') && Slotted(root, slot', |groups'|, groupOf')
    ensures multiset(Flat(groups')) == multiset(rows[..n + 1])
  {
    var g := |groups|;
    slot' := slot;
    if r in slot {
      g := slot[r];
    } else {
      slot' := slot[r := g];
    }
    groups' := Appended(groups, g, rows[n]);
    members', groupOf' := Appended(members, g, n), groupOf + [g];
    assert rows[..n + 1] == rows[..n] + [rows[n]];
    AppendedFlat(groups, g, rows[n]);
    CollectOne(rows, groups, members, groupOf, g);
    SlotOne(root, slot, |groups|, groupOf);
  }
}
