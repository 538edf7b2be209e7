/**
 The root over a day's receipt ids (`computeMerkleRoot` of the worker): leaves are
 hashed, pairs are hashed upwards, and an odd node is promoted as it is. The hash is
 any function on strings; what is proved assumes no more of it than its width, and
 that no two of the strings that were hashed collide.
 */
module MerkleRoot {

  /** The hash function: `sha256Hex`, or any other. */
  type Hash = string -> string

  const ZERO := "0000000000000000000000000000000000000000000000000000000000000000"

  /** What a root was computed from. */
  datatype Tree = Leaf(id: string) | Node(left: Tree, right: Tree)

  function Value(h: Hash, t: Tree): string {
    match t
    case Leaf(id) => h(id)
    case Node(left, right) => h(Value(h, left) + Value(h, right))
  }

  function Values(h: Hash, ts: seq<Tree>): (r: seq<string>)
    ensures |r| == |ts|
  {
    if ts == [] then [] else [Value(h, ts[0])] + Values(h, ts[1..])
  }

  function Leaves(ids: seq<string>): (r: seq<Tree>)
    ensures |r| == |ids|
  {
    if ids == [] then [] else [Leaf(ids[0])] + Leaves(ids[1..])
  }

  /** One level up. */
  function Paired(ts: seq<Tree>): (r: seq<Tree>)
    ensures if |ts| < 2 then r == ts else 1 <= |r| < |ts|
  {
    if |ts| < 2 then ts else [Node(ts[0], ts[1])] + Paired(ts[2..])
  }

  function Grown(ts: seq<Tree>): Tree
    requires ts != []
    decreases |ts|
  {
    if |ts| == 1 then ts[0] else Grown(Paired(ts))
  }

  function Root(h: Hash, ids: seq<string>): string {
    if ids == [] then ZERO else Value(h, Grown(Leaves(ids)))
  }

  // ----- the loops -----

  lemma {:induction false} ValuesAppend(h: Hash, ts: seq<Tree>, t: Tree)
    ensures Values(h, ts + [t]) == Values(h, ts) + [Value(h, t)]
  {
    if ts == [] {
      assert [] + [t] == [t] && [t][1..] == [];
    } else {
      assert (ts + [t])[1..] == ts[1..] + [t];
      ValuesAppend(h, ts[1..], t);
    }
  }

  lemma {:induction false} ValuesAt(h: Hash, ts: seq<Tree>, i: nat)
    requires i < |ts|
    ensures Values(h, ts)[i] == Value(h, ts[i])
  {
    if i == 0 {
    } else {
      ValuesAt(h, ts[1..], i - 1);
    }
  }

  lemma PairedUnfolds(ts: seq<Tree>)
    requires |ts| >= 2
    ensures Paired(ts) == [Node(ts[0], ts[1])] + Paired(ts[2..])
  {
  }

  lemma {:induction false} PairAppends(ts: seq<Tree>, i: nat)
    requires i + 1 < |ts| && i % 2 == 0
    ensures Paired(ts[..i + 2]) == Paired(ts[..i]) + [Node(ts[i], ts[i + 1])]
    decreases i
  {
    PairedUnfolds(ts[..i + 2]);
    if i == 0 {
      assert ts[..0] == [] && ts[..2][2..] == [];
    } else {
      PairAppends(ts[2..], i - 2);
      PairedUnfolds(ts[..i]);
      assert ts[..i][2..] == ts[2..][..i - 2] && ts[..i + 2][2..] == ts[2..][..i];
    }
  }

  lemma {:induction false} OddOneAppends(ts: seq<Tree>, i: nat)
    requires i + 1 == |ts| && i % 2 == 0
    ensures Paired(ts) == Paired(ts[..i]) + [ts[i]]
    decreases i
  {
    if i == 0 {
      assert ts == [ts[0]] && ts[..0] == [];
    } else {
      OddOneAppends(ts[2..], i - 2);
      PairedUnfolds(ts);
      PairedUnfolds(ts[..i]);
      assert ts[..i][2..] == ts[2..][..i - 2];
    }
  }

  /** What the next two nodes become. */
  lemma NextTwo(h: Hash, ts: seq<Tree>, i: nat)
    requires i + 1 < |ts| && i % 2 == 0
    ensures Values(h, Paired(ts[..i + 2]))
            == Values(h, Paired(ts[..i])) + [h(Values(h, ts)[i] + Values(h, ts)[i + 1])]
  {
    ValuesAt(h, ts, i);
    ValuesAt(h, ts, i + 1);
    PairAppends(ts, i);
    ValuesAppend(h, Paired(ts[..i]), Node(ts[i], ts[i + 1]));
  }

  /** The last one alone is promoted. */
  lemma LastAlone(h: Hash, ts: seq<Tree>, i: nat)
    requires i + 1 == |ts| && i % 2 == 0
    ensures Values(h, Paired(ts)) == Values(h, Paired(ts[..i])) + [Values(h, ts)[i]]
  {
    ValuesAt(h, ts, i);
    OddOneAppends(ts, i);
    ValuesAppend(h, Paired(ts[..i]), ts[i]);
  }

  /** The inner loop: one level up. */
  method PairUp(h: Hash, level: seq<string>, ghost ts: seq<Tree>) returns (next: seq<string>)
    requires level == Values(h, ts)
    ensures next == Values(h, Paired(ts))
  {
    next := [];
    var i := 0;
    while i < |level|
      invariant i % 2 == 0 && i <= |level| + 1
      invariant next == Values(h, Paired(ts[..if i <= |ts| then i else |ts|]))
    {
      if i + 1 < |level| {
        NextTwo(h, ts, i);
        next := next + [h(level[i] + level[i + 1])];
      } else {
        LastAlone(h, ts, i);
        assert ts[..|ts|] == ts;
        next := next + [level[i]];
      }
      i := i + 2;
    }
    assert ts[..|ts|] == ts;
  }

  method ComputeMerkleRoot(h: Hash, receiptIds: seq<string>) returns (root: string)
    ensures root == Root(h, receiptIds)
  {
    if |receiptIds| == 0 {
      return ZERO;
    }
    var level: seq<string> := [];
    ghost var ts: seq<Tree> := [];
    for i := 0 to |receiptIds|
      invariant ts == Leaves(receiptIds[..i]) && level == Values(h, ts)
    {
      LeavesAppend(receiptIds, i);
      ValuesAppend(h, ts, Leaf(receiptIds[i]));
      level := level + [h(receiptIds[i])];
      ts := ts + [Leaf(receiptIds[i])];
    }
    assert receiptIds[..|receiptIds|] == receiptIds;
    while |level| > 1
      invariant ts != [] && level == Values(h, ts)
      invariant Grown(ts) == Grown(Leaves(receiptIds))
      decreases |level|
    {
      level := PairUp(h, level, ts);
      ts := Paired(ts);
    }
    ValuesAt(h, ts, 0);
    root := level[0];
  }

  lemma {:induction false} LeavesAppend(ids: seq<string>, i: nat)
    requires i < |ids|
    ensures Leaves(ids[..i + 1]) == Leaves(ids[..i]) + [Leaf(ids[i])]
  {
    if i == 0 {
      assert ids[..1][1..] == [];
    } else {
      assert ids[..i + 1][1..] == ids[1..][..i] && ids[..i][1..] == ids[1..][..i - 1];
      LeavesAppend(ids[1..], i - 1);
    }
  }

  // ----- the tree keeps the list -----

  /** The ids at the leaves, from left to right. */
  function Ids(t: Tree): seq<string> {
    match t
    case Leaf(id) => [id]
    case Node(left, right) => Ids(left) + Ids(right)
  }

  function AllIds(ts: seq<Tree>): seq<string> {
    if ts == [] then [] else Ids(ts[0]) + AllIds(ts[1..])
  }

  lemma {:induction false} PairingKeepsIds(ts: seq<Tree>)
    ensures AllIds(Paired(ts)) == AllIds(ts)
  {
    if |ts| < 2 {
    } else {
      var rest := Paired(ts[2..]);
      PairingKeepsIds(ts[2..]);
      assert ([Node(ts[0], ts[1])] + rest)[1..] == rest;
      assert ts[1..][1..] == ts[2..] && ts[1..][0] == ts[1];
      assert AllIds(ts) == Ids(ts[0]) + (Ids(ts[1]) + AllIds(ts[2..]));
    }
  }

  lemma {:induction false} GrowingKeepsIds(ts: seq<Tree>)
    requires ts != []
    ensures Ids(Grown(ts)) == AllIds(ts)
    decreases |ts|
  {
    if |ts| == 1 {
      assert ts[1..] == [];
    } else {
      PairingKeepsIds(ts);
      GrowingKeepsIds(Paired(ts));
    }
  }

  lemma {:induction false} LeavesKeepIds(ids: seq<string>)
    ensures AllIds(Leaves(ids)) == ids
  {
    if ids == [] {
    } else {
      LeavesKeepIds(ids[1..]);
      assert ids == [ids[0]] + ids[1..];
      assert ([Leaf(ids[0])] + Leaves(ids[1..]))[1..] == Leaves(ids[1..]);
    }
  }

  /** The tree of a list has that list at its leaves, odd nodes promoted or not. */
  lemma TreeKeepsList(ids: seq<string>)
    requires ids != []
    ensures Ids(Grown(Leaves(ids))) == ids
  {
    LeavesKeepIds(ids);
    GrowingKeepsIds(Leaves(ids));
  }

  // ----- the shape of the tree -----

  function Size(t: Tree): (n: nat)
    ensures n == |Ids(t)| && n >= 1
  {
    match t
    case Leaf(_) => 1
    case Node(left, right) => Size(left) + Size(right)
  }

  function Pow2(k: nat): (n: nat)
    ensures n >= 1
  {
    if k == 0 then 1 else 2 * Pow2(k - 1)
  }

  /** At every node the left side has the largest power of two below the whole. */
  ghost predicate Balanced(t: Tree) {
    match t
    case Leaf(_) => true
    case Node(left, right) =>
      && Balanced(left) && Balanced(right)
      && exists k :: Size(left) == Pow2(k) && Size(right) <= Pow2(k)
  }

  /** The trees of one level: all of 2^k leaves but the last, which has at most as many. */
  ghost predicate Level(ts: seq<Tree>, k: nat) {
    && (forall i :: 0 <= i < |ts| ==> Balanced(ts[i]) && Size(ts[i]) <= Pow2(k))
    && (forall i :: 0 <= i < |ts| - 1 ==> Size(ts[i]) == Pow2(k))
  }

  lemma {:induction false} PairingKeepsLevel(ts: seq<Tree>, k: nat)
    requires Level(ts, k)
    ensures Level(Paired(ts), k + 1)
  {
    if |ts| < 2 {
    } else {
      var node, rest := Node(ts[0], ts[1]), Paired(ts[2..]);
      PairingKeepsLevel(ts[2..], k);
      assert Balanced(node) && Size(node) <= Pow2(k + 1);
      assert Paired(ts) == [node] + rest;
      forall i | 0 <= i < |Paired(ts)|
        ensures Balanced(Paired(ts)[i]) && Size(Paired(ts)[i]) <= Pow2(k + 1)
        ensures i < |Paired(ts)| - 1 ==> Size(Paired(ts)[i]) == Pow2(k + 1)
      {
        if i > 0 {
          assert Paired(ts)[i] == rest[i - 1];
        }
      }
    }
  }

  lemma {:induction false} GrowingKeepsBalance(ts: seq<Tree>, k: nat)
    requires ts != [] && Level(ts, k)
    ensures Balanced(Grown(ts))
    decreases |ts|
  {
    if |ts| == 1 {
    } else {
      PairingKeepsLevel(ts, k);
      GrowingKeepsBalance(Paired(ts), k + 1);
    }
  }

  lemma {:induction false} LeavesAreLevel(ids: seq<string>)
    ensures Level(Leaves(ids), 0)
  {
    if ids == [] {
    } else {
      LeavesAreLevel(ids[1..]);
      var rest := Leaves(ids[1..]);
      assert forall i :: 0 < i < |Leaves(ids)| ==> Leaves(ids)[i] == rest[i - 1];
    }
  }

  lemma {:induction false} Pow2Grows(j: nat, k: nat)
    requires j < k
    ensures 2 * Pow2(j) <= Pow2(k)
  {
    if k == j + 1 {
    } else {
      Pow2Grows(j, k - 1);
    }
  }

  /** A number lies above one power of two only and not above its double. */
  lemma OneSplit(j: nat, k: nat, n: nat)
    requires Pow2(j) < n <= 2 * Pow2(j) && Pow2(k) < n <= 2 * Pow2(k)
    ensures j == k
  {
    if j < k {
      Pow2Grows(j, k);
    } else if k < j {
      Pow2Grows(k, j);
    }
  }

  /** A list has one balanced tree. */
  lemma {:induction false} BalancedTreeIsUnique(t: Tree, t': Tree)
    requires Balanced(t) && Balanced(t') && Ids(t) == Ids(t')
    ensures t == t'
    decreases t
  {
    assert Size(t) == Size(t');
    if t.Leaf? || t'.Leaf? {
    } else {
      var k :| Size(t.left) == Pow2(k) && Size(t.right) <= Pow2(k);
      var k' :| Size(t'.left) == Pow2(k') && Size(t'.right) <= Pow2(k');
      OneSplit(k, k', Size(t));
      assert Ids(t.left) == Ids(t)[..Size(t.left)] && Ids(t.right) == Ids(t)[Size(t.left)..];
      assert Ids(t'.left) == Ids(t')[..Size(t'.left)] && Ids(t'.right) == Ids(t')[Size(t'.left)..];
      BalancedTreeIsUnique(t.left, t'.left);
      BalancedTreeIsUnique(t.right, t'.right);
    }
  }

  /**
   Main result: pairing level by level and promoting the odd node comes to the one tree
   over the list that splits off the largest power of two at every node.
   */
  lemma TreeSplitsAtPowersOfTwo(ids: seq<string>, t: Tree)
    requires ids != []
    ensures t == Grown(Leaves(ids)) <==> Ids(t) == ids && Balanced(t)
  {
    TreeKeepsList(ids);
    LeavesAreLevel(ids);
    GrowingKeepsBalance(Leaves(ids), 0);
    if Ids(t) == ids && Balanced(t) {
      BalancedTreeIsUnique(t, Grown(Leaves(ids)));
    }
  }

  // ----- what a root tells -----

  /** The strings that were hashed on the way to the value of a tree. */
  function Hashed(h: Hash, t: Tree): set<string> {
    match t
    case Leaf(id) => {id}
    case Node(left, right) => {Value(h, left) + Value(h, right)} + Hashed(h, left) + Hashed(h, right)
  }

  /** `sha256Hex` gives 64 digits. */
  ghost predicate Sized(h: Hash) {
    forall x :: |h(x)| == 64
  }

  predicate CollisionFree(h: Hash, xs: set<string>) {
    forall x, y :: x in xs && y in xs && h(x) == h(y) ==> x == y
  }

  /** Leaf for leaf the same, but that a leaf whose id is two hash values stands for the node over them. */
  predicate Alike(h: Hash, t: Tree, t': Tree) {
    match (t, t')
    case (Leaf(id), Leaf(id')) => id == id'
    case (Node(l, r), Node(l', r')) => Alike(h, l, l') && Alike(h, r, r')
    case (Leaf(id), Node(l', r')) => id == Value(h, l') + Value(h, r')
    case (Node(l, r), Leaf(id')) => Value(h, l) + Value(h, r) == id'
  }

  lemma ValueIsSized(h: Hash, t: Tree)
    requires Sized(h)
    ensures |Value(h, t)| == 64
  {
  }

  lemma HalvesAgree(a: string, b: string, a': string, b': string)
    requires |a| == |a'| && a + b == a' + b'
    ensures a == a' && b == b'
  {
    assert a == (a + b)[..|a|] && a' == (a' + b')[..|a'|];
    assert b == (a + b)[|a|..] && b' == (a' + b')[|a'|..];
  }

  /** Main result: without a collision two trees have one value exactly when they are alike. */
  lemma {:induction false} ValueTellsTree(h: Hash, t: Tree, t': Tree)
    requires Sized(h) && CollisionFree(h, Hashed(h, t) + Hashed(h, t'))
    ensures Value(h, t) == Value(h, t') <==> Alike(h, t, t')
    decreases t
  {
    if t.Leaf? || t'.Leaf? {
    } else {
      ValueTellsTree(h, t.left, t'.left);
      ValueTellsTree(h, t.right, t'.right);
      ValueIsSized(h, t.left);
      ValueIsSized(h, t'.left);
      if Value(h, t) == Value(h, t') {
        HalvesAgree(Value(h, t.left), Value(h, t.right), Value(h, t'.left), Value(h, t'.right));
      }
    }
  }

  /** An id as long as two hash values. No UUID is; an Ed25519 signature in hexadecimal is. */
  predicate TwoHashesLong(ids: seq<string>) {
    exists i :: 0 <= i < |ids| && |ids[i]| == 128
  }

  lemma {:induction false} AlikeIsSame(h: Hash, t: Tree, t': Tree)
    requires Sized(h) && !TwoHashesLong(Ids(t)) && !TwoHashesLong(Ids(t'))
    ensures Alike(h, t, t') <==> t == t'
    decreases t
  {
    match (t, t') {
      case (Leaf(id), Leaf(id')) =>
      case (Node(l, r), Node(l', r')) =>
        SidesAreShort(t);
        SidesAreShort(t');
        AlikeIsSame(h, l, l');
        AlikeIsSame(h, r, r');
      case (Leaf(id), Node(l', r')) =>
        ValueIsSized(h, l');
        ValueIsSized(h, r');
        assert Ids(t)[0] == id;
      case (Node(l, r), Leaf(id')) =>
        ValueIsSized(h, l);
        ValueIsSized(h, r);
        assert Ids(t')[0] == id';
    }
  }

  lemma SidesAreShort(t: Tree)
    requires t.Node? && !TwoHashesLong(Ids(t))
    ensures !TwoHashesLong(Ids(t.left)) && !TwoHashesLong(Ids(t.right))
  {
    var l, r := Ids(t.left), Ids(t.right);
    assert forall i :: 0 <= i < |l| ==> l[i] == (l + r)[i];
    assert forall i :: 0 <= i < |r| ==> r[i] == (l + r)[|l| + i];
  }

  function HashedFor(h: Hash, ids: seq<string>): set<string> {
    if ids == [] then {} else Hashed(h, Grown(Leaves(ids)))
  }

  /** No two strings hashed for the lists collide, and none hashes to the root of the empty list. */
  ghost predicate Sound(h: Hash, ids: seq<string>, ids': seq<string>) {
    && Sized(h) && CollisionFree(h, HashedFor(h, ids) + HashedFor(h, ids'))
    && forall x :: x in HashedFor(h, ids) + HashedFor(h, ids') ==> h(x) != ZERO
  }

  lemma ValueIsHash(h: Hash, t: Tree)
    ensures exists x :: x in Hashed(h, t) && Value(h, t) == h(x)
  {
    match t
    case Leaf(id) => assert id in Hashed(h, t);
    case Node(l, r) => assert Value(h, l) + Value(h, r) in Hashed(h, t);
  }

  /**
   Main result: without a collision two lists of ids share a root exactly when both
   are empty or their trees are alike; and when no id is two hash values long,
   exactly when they are the same list.
   */
  lemma RootTellsList(h: Hash, ids: seq<string>, ids': seq<string>)
    requires Sound(h, ids, ids')
    ensures Root(h, ids) == Root(h, ids') <==>
              if ids == [] || ids' == [] then ids == ids' else Alike(h, Grown(Leaves(ids)), Grown(Leaves(ids')))
    ensures !TwoHashesLong(ids) && !TwoHashesLong(ids') ==> (Root(h, ids) == Root(h, ids') <==> ids == ids')
  {
    if ids == [] && ids' == [] {
    } else if ids == [] {
      ValueIsHash(h, Grown(Leaves(ids')));
    } else if ids' == [] {
      ValueIsHash(h, Grown(Leaves(ids)));
    } else {
      var t, t' := Grown(Leaves(ids)), Grown(Leaves(ids'));
      ValueTellsTree(h, t, t');
      TreeKeepsList(ids);
      TreeKeepsList(ids');
      if !TwoHashesLong(ids) && !TwoHashesLong(ids') {
        AlikeIsSame(h, t, t');
      }
    }
  }

  /** Leaves and inner nodes are hashed alike: the one id made of two leaf hashes has the root of the two ids. */
  lemma OneIdForTwo(h: Hash, a: string, b: string)
    ensures Root(h, [h(a) + h(b)]) == Root(h, [a, b])
  {
    var leaves := Leaves([a, b]);
    assert [a, b][1..] == [b] && [b][1..] == [];
    assert Leaves([b]) == [Leaf(b)];
    assert leaves == [Leaf(a), Leaf(b)];
    assert leaves[2..] == [];
    var two := Node(Leaf(a), Leaf(b));
    assert Paired(leaves) == [two] && Grown(leaves) == Grown([two]) == two;
    assert Value(h, two) == h(Value(h, Leaf(a)) + Value(h, Leaf(b)));
    assert Leaves([h(a) + h(b)]) == [Leaf(h(a) + h(b))];
  }
}
