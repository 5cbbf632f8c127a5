/** JSON documents as objects that refer to each other: copying one, and the sweep that
    rewrites one in place. (engine/evidence.py, redact_document and dumps_evidence) */
module JsonHeap {
  import opened JsonSweep

  /** What a slot of a list or a dict holds: a value, or another list or dict. */
  datatype Slot = Leaf(value: Json) | Ref(node: Node)

  class Node {
    const kind: Kind
    var slots: seq<Slot>
    /** This object and every object below it. */
    ghost const Repr: set<Node>

    constructor (kind: Kind, slots: seq<Slot>, ghost below: set<Node>)
      ensures this.kind == kind && this.slots == slots && Repr == below + {this}
    {
      this.kind, this.slots, this.Repr := kind, slots, below + {this};
    }

    /** A tree: no part is shared and nothing is its own part. */
    ghost predicate Valid()
      reads Repr
    {
      Tree(Snapshot(Repr), this)
    }

    /** The document the object stands for. */
    ghost function View(): Json
      requires Valid()
      reads Repr
    {
      ViewIn(Snapshot(Repr), this)
    }
  }

  /** What every object's slots hold at one moment. */
  type Heap = map<Node, seq<Slot>>

  ghost function Snapshot(nodes: set<Node>): (h: Heap)
    reads nodes
    ensures h.Keys == nodes && forall n :: n in nodes ==> h[n] == n.slots
  {
    map n | n in nodes :: n.slots
  }

  ghost predicate Tree(h: Heap, n: Node)
    decreases n.Repr, 1
  {
    && n in n.Repr && n.Repr <= h.Keys
    && (forall i :: 0 <= i < |h[n]| ==> SlotOk(h, n, h[n][i]))
    && Apart(h[n])
    && (forall m :: m in n.Repr ==> m == n || Under(h[n], m))
  }

  ghost predicate SlotOk(h: Heap, n: Node, s: Slot)
    decreases n.Repr, 0
  {
    match s
    case Leaf(v) => !v.Coll?
    case Ref(c) => c.Repr < n.Repr && n !in c.Repr && Tree(h, c)
  }

  ghost predicate Apart(slots: seq<Slot>) {
    forall i, j :: 0 <= i < j < |slots| && slots[i].Ref? && slots[j].Ref? ==> slots[i].node.Repr !! slots[j].node.Repr
  }

  /** Some slot refers to `m` or to something above it. */
  ghost predicate Under(slots: seq<Slot>, m: Node) {
    exists i :: 0 <= i < |slots| && slots[i].Ref? && m in slots[i].node.Repr
  }

  ghost function ViewIn(h: Heap, n: Node): Json
    requires Tree(h, n)
    decreases n.Repr, 1
  {
    Coll(n.kind, seq(|h[n]|, i requires 0 <= i < |h[n]| => SlotView(h, n, h[n][i])))
  }

  ghost function SlotView(h: Heap, n: Node, s: Slot): Json
    requires SlotOk(h, n, s)
    decreases n.Repr, 0
  {
    match s
    case Leaf(v) => v
    case Ref(c) => ViewIn(h, c)
  }

  // ---- Copying ----

  /** Objects outside a tree do not matter to it. */
  lemma {:induction false} TreeElsewhere(h: Heap, h': Heap, n: Node)
    requires Tree(h, n) && n.Repr <= h'.Keys && forall m :: m in n.Repr ==> h'[m] == h[m]
    ensures Tree(h', n) && ViewIn(h', n) == ViewIn(h, n)
    decreases n.Repr
  {
    forall i | 0 <= i < |h[n]|
      ensures SlotOk(h', n, h[n][i]) && SlotView(h', n, h[n][i]) == SlotView(h, n, h[n][i])
    {
      assert SlotOk(h, n, h[n][i]);
      if h[n][i].Ref? {
        TreeElsewhere(h, h', h[n][i].node);
      }
    }
    assert ViewIn(h', n).children == ViewIn(h, n).children;
  }

  lemma ChildOf(n: Node, i: nat)
    requires n.Valid() && n in n.Repr && i < |n.slots| && n.slots[i].Ref?
    ensures n.slots[i].node.Repr < n.Repr && n.slots[i].node.Valid()
    ensures n.View().children[i] == n.slots[i].node.View()
  {
    var h, c := Snapshot(n.Repr), n.slots[i].node;
    assert SlotOk(h, n, h[n][i]);
    PartOfView(h, n, i);
    TreeElsewhere(h, Snapshot(c.Repr), c);
  }

  lemma PartOfView(h: Heap, n: Node, i: nat)
    requires Tree(h, n) && i < |h[n]|
    ensures SlotOk(h, n, h[n][i]) && |ViewIn(h, n).children| == |h[n]|
    ensures ViewIn(h, n).children[i] == SlotView(h, n, h[n][i])
  {
    assert SlotOk(h, n, h[n][i]);
  }

  lemma LeafOf(n: Node, i: nat)
    requires n.Valid() && n in n.Repr && i < |n.slots| && n.slots[i].Leaf?
    ensures !n.slots[i].value.Coll? && n.View().children[i] == n.slots[i].value
  {
    PartOfView(Snapshot(n.Repr), n, i);
  }

  lemma ValidHasSelf(n: Node)
    requires n.Valid()
    ensures n in n.Repr && |n.View().children| == |n.slots| && n.View().kind == n.kind && n.View().Coll?
  {
  }

  /** `t` is a copy of the i-th part of `j`, built from objects in `below`. */
  ghost predicate Copied(j: Json, i: nat, t: Slot, below: set<Node>)
    requires j.Coll? && i < |j.children|
    reads if t.Ref? then t.node.Repr else {}
  {
    match t
    case Leaf(v) => !v.Coll? && v == j.children[i]
    case Ref(c) => c.Repr <= below && c.Valid() && c.View() == j.children[i]
  }

  /** A copy in new objects. */
  method DeepCopy(n: Node) returns (c: Node)
    requires n.Valid()
    ensures c.Valid() && fresh(c.Repr) && c.View() == n.View()
    decreases n.Repr
  {
    hide Tree, ViewIn, Snapshot;
    var slots: seq<Slot> := [];
    ghost var below: set<Node> := {};
    ghost var j := n.View();
    ValidHasSelf(n);
    var i := 0;
    while i < |n.slots|
      invariant |slots| == i <= |n.slots| && fresh(below)
      invariant forall k :: 0 <= k < i ==> Copied(j, k, slots[k], below)
      invariant Apart(slots)
      invariant forall m :: m in below ==> Under(slots, m)
    {
      ghost var before, had := slots, below;
      match n.slots[i] {
        case Leaf(v) =>
          LeafOf(n, i);
          slots := slots + [Leaf(v)];
        case Ref(child) =>
          ChildOf(n, i);
          var copy := DeepCopy(child);
          slots := slots + [Ref(copy)];
          below := below + copy.Repr;
      }
      MoreApart(before, had, slots[i]);
      MoreUnder(before, had, slots[i]);
      i := i + 1;
    }
    c := new Node(n.kind, slots, below);
    CopyComplete(c, j, below);
  }

  lemma MoreApart(slots: seq<Slot>, below: set<Node>, s: Slot)
    requires Apart(slots) && (s.Ref? ==> s.node.Repr !! below)
    requires forall k :: 0 <= k < |slots| && slots[k].Ref? ==> slots[k].node.Repr <= below
    ensures Apart(slots + [s])
  {
  }

  lemma MoreUnder(slots: seq<Slot>, below: set<Node>, s: Slot)
    requires forall m :: m in below ==> Under(slots, m)
    ensures forall m :: m in below || (s.Ref? && m in s.node.Repr) ==> Under(slots + [s], m)
  {
    var more := slots + [s];
    forall m | m in below || (s.Ref? && m in s.node.Repr) ensures Under(more, m) {
      if m in below {
        var i :| 0 <= i < |slots| && slots[i].Ref? && m in slots[i].node.Repr;
        assert more[i] == slots[i];
      } else {
        assert more[|slots|] == s;
      }
    }
  }

  lemma CopyComplete(c: Node, j: Json, below: set<Node>)
    requires j.Coll? && c.kind == j.kind && |c.slots| == |j.children| && c.Repr == below + {c} && c !in below
    requires forall k :: 0 <= k < |c.slots| ==> Copied(j, k, c.slots[k], below)
    requires Apart(c.slots) && forall m :: m in below ==> Under(c.slots, m)
    ensures c.Valid() && c.View() == j
  {
    var h := Snapshot(c.Repr);
    forall k | 0 <= k < |c.slots| ensures SlotOk(h, c, h[c][k]) && SlotView(h, c, h[c][k]) == j.children[k] {
      assert Copied(j, k, c.slots[k], below);
      if c.slots[k].Ref? {
        var child := c.slots[k].node;
        TreeElsewhere(Snapshot(child.Repr), h, child);
      }
    }
    assert c.View().children == j.children;
  }

  // ---- Sweeping in place ----

  function SweptSlot(patterns: seq<Pattern>, s: Slot): Slot {
    if s.Leaf? && s.value.Str? then Leaf(Str(SweptText(patterns, s.value.s))) else s
  }

  function SweptSlots(patterns: seq<Pattern>, slots: seq<Slot>): (r: seq<Slot>)
    ensures |r| == |slots|
  {
    seq(|slots|, i requires 0 <= i < |slots| => SweptSlot(patterns, slots[i]))
  }

  predicate SlotRedacted(patterns: seq<Pattern>, s: Slot) {
    s.Leaf? && s.value.Str? && Redacted(patterns, s.value.s, MAX_TEXT_CHARS).redacted
  }

  predicate SlotTruncated(patterns: seq<Pattern>, s: Slot) {
    s.Leaf? && s.value.Str? && Redacted(patterns, s.value.s, MAX_TEXT_CHARS).truncated
  }

  predicate AnyRedacted(patterns: seq<Pattern>, slots: seq<Slot>) {
    exists i :: 0 <= i < |slots| && SlotRedacted(patterns, slots[i])
  }

  predicate AnyTruncated(patterns: seq<Pattern>, slots: seq<Slot>) {
    exists i :: 0 <= i < |slots| && SlotTruncated(patterns, slots[i])
  }

  /** The lists and dicts that the slots refer to, in order. */
  function RefsOf(slots: seq<Slot>): seq<Node>
    decreases |slots|
  {
    if slots == [] then []
    else
      var n := |slots| - 1;
      RefsOf(slots[..n]) + (if slots[n].Ref? then [slots[n].node] else [])
  }

  /** When each object's slots are swept, so is the document. */
  lemma {:induction false} SweptHeap(patterns: seq<Pattern>, h: Heap, h': Heap, n: Node)
    requires Tree(h, n) && n.Repr <= h'.Keys
    requires forall m :: m in n.Repr ==> h'[m] == SweptSlots(patterns, h[m])
    ensures Tree(h', n) && ViewIn(h', n) == Swept(patterns, ViewIn(h, n))
    decreases n.Repr
  {
    hide SweptText, Swept;
    forall i | 0 <= i < |h[n]|
      ensures SlotOk(h', n, h'[n][i]) && SlotView(h', n, h'[n][i]) == SweptChild(patterns, SlotView(h, n, h[n][i]))
    {
      SweptHeapSlot(patterns, h, h', n, i);
    }
    SweptApart(patterns, h[n]);
    forall m | m in n.Repr ensures m == n || Under(h'[n], m) {
      SweptUnder(patterns, h[n], m);
    }
    CollSwept(patterns, ViewIn(h, n));
    assert ViewIn(h', n).children == Swept(patterns, ViewIn(h, n)).children;
  }

  lemma {:induction false} SweptHeapSlot(patterns: seq<Pattern>, h: Heap, h': Heap, n: Node, i: nat)
    requires Tree(h, n) && n.Repr <= h'.Keys && i < |h[n]|
    requires forall m :: m in n.Repr ==> h'[m] == SweptSlots(patterns, h[m])
    ensures SlotOk(h, n, h[n][i]) && i < |h'[n]| && SlotOk(h', n, h'[n][i])
    ensures SlotView(h', n, h'[n][i]) == SweptChild(patterns, SlotView(h, n, h[n][i]))
    decreases n.Repr, 0
  {
    hide SweptText, Swept, ViewIn;
    var s := h[n][i];
    assert SlotOk(h, n, s) && h'[n][i] == SweptSlot(patterns, s);
    if s.Ref? {
      SweptHeap(patterns, h, h', s.node);
      ViewIsColl(h, s.node);
    } else if !s.value.Str? {
      LeafSwept(patterns, s.value);
    }
  }

  lemma ViewIsColl(h: Heap, n: Node)
    requires Tree(h, n)
    ensures ViewIn(h, n).Coll? && ViewIn(h, n).kind == n.kind && |ViewIn(h, n).children| == |h[n]|
  {
  }

  lemma SweptApart(patterns: seq<Pattern>, slots: seq<Slot>)
    requires Apart(slots)
    ensures Apart(SweptSlots(patterns, slots))
  {
    hide SweptText;
    var r := SweptSlots(patterns, slots);
    assert forall i :: 0 <= i < |r| ==> r[i] == SweptSlot(patterns, slots[i]);
  }

  lemma SweptUnder(patterns: seq<Pattern>, slots: seq<Slot>, m: Node)
    ensures Under(slots, m) ==> Under(SweptSlots(patterns, slots), m)
  {
    if i :| 0 <= i < |slots| && slots[i].Ref? && m in slots[i].node.Repr {
      assert SweptSlots(patterns, slots)[i] == slots[i];
    }
  }

  /** A document's flags come from the slots of its objects. */
  lemma {:induction false} FlagsOf(patterns: seq<Pattern>, h: Heap, n: Node)
    requires Tree(h, n)
    ensures SomeRedacted(patterns, ViewIn(h, n)) <==> exists m :: m in n.Repr && AnyRedacted(patterns, h[m])
    ensures SomeTruncated(patterns, ViewIn(h, n)) <==> exists m :: m in n.Repr && AnyTruncated(patterns, h[m])
    decreases n.Repr
  {
    hide Redacted, ViewIn;
    var j := ViewIn(h, n);
    ViewIsColl(h, n);
    forall i | 0 <= i < |h[n]|
      ensures ChildRedacted(patterns, j.children[i])
              <==> SlotRedacted(patterns, h[n][i]) || (h[n][i].Ref? && exists m :: m in h[n][i].node.Repr && AnyRedacted(patterns, h[m]))
      ensures ChildTruncated(patterns, j.children[i])
              <==> SlotTruncated(patterns, h[n][i]) || (h[n][i].Ref? && exists m :: m in h[n][i].node.Repr && AnyTruncated(patterns, h[m]))
    {
      PartOfView(h, n, i);
      if h[n][i].Ref? {
        FlagsOf(patterns, h, h[n][i].node);
        ViewIsColl(h, h[n][i].node);
      } else if !h[n][i].value.Str? {
        LeafSwept(patterns, h[n][i].value);
      }
    }
    if m :| m in n.Repr && AnyRedacted(patterns, h[m]) {
      PlaceOf(h, n, m);
    }
    if m :| m in n.Repr && AnyTruncated(patterns, h[m]) {
      PlaceOf(h, n, m);
    }
    FlagsUp(patterns, h, n);
  }

  lemma PlaceOf(h: Heap, n: Node, m: Node)
    requires Tree(h, n) && m in n.Repr
    ensures m == n || exists i :: 0 <= i < |h[n]| && h[n][i].Ref? && m in h[n][i].node.Repr
  {
  }

  lemma FlagsUp(patterns: seq<Pattern>, h: Heap, n: Node)
    requires Tree(h, n)
    ensures forall i, m :: 0 <= i < |h[n]| && h[n][i].Ref? && m in h[n][i].node.Repr ==> m in n.Repr
  {
    forall i, m | 0 <= i < |h[n]| && h[n][i].Ref? && m in h[n][i].node.Repr ensures m in n.Repr {
      assert SlotOk(h, n, h[n][i]);
    }
  }

  // ---- The stack ----

  ghost predicate Covers(stack: seq<Node>, m: Node) {
    exists k :: 0 <= k < |stack| && m in stack[k].Repr
  }

  ghost predicate DisjointTrees(h: Heap, stack: seq<Node>) {
    && (forall k :: 0 <= k < |stack| ==> Tree(h, stack[k]))
    && (forall k, l :: 0 <= k < l < |stack| ==> stack[k].Repr !! stack[l].Repr)
  }

  /** Each object of the document was visited or lies below one place on the stack. */
  ghost predicate Pending(h: Heap, all: set<Node>, visited: set<Node>, stack: seq<Node>) {
    && visited <= all && DisjointTrees(h, stack)
    && (forall k :: 0 <= k < |stack| ==> stack[k].Repr <= all && stack[k].Repr !! visited)
    && (forall m :: m in all ==> m in visited || Covers(stack, m))
  }

  lemma {:induction false} RefsMembers(slots: seq<Slot>, c: Node)
    ensures c in RefsOf(slots) <==> exists i :: 0 <= i < |slots| && slots[i] == Ref(c)
    decreases |slots|
  {
    if slots != [] {
      var n := |slots| - 1;
      RefsMembers(slots[..n], c);
      if i :| 0 <= i < |slots| && slots[i] == Ref(c) {
        assert i < n ==> slots[..n][i] == Ref(c);
      }
    }
  }

  lemma {:induction false} RefsApart(slots: seq<Slot>)
    requires Apart(slots)
    ensures forall k, l :: 0 <= k < l < |RefsOf(slots)| ==> RefsOf(slots)[k].Repr !! RefsOf(slots)[l].Repr
    decreases |slots|
  {
    if slots != [] {
      var n := |slots| - 1;
      var before := RefsOf(slots[..n]);
      RefsApart(slots[..n]);
      if slots[n].Ref? {
        forall k | 0 <= k < |before| ensures before[k].Repr !! slots[n].node.Repr {
          RefsMembers(slots[..n], before[k]);
        }
      }
    }
  }

  /** The parts of a tree are disjoint trees inside it that cover it, itself apart. */
  lemma RefsOfTree(h: Heap, n: Node)
    requires Tree(h, n)
    ensures DisjointTrees(h, RefsOf(h[n]))
    ensures forall k :: 0 <= k < |RefsOf(h[n])| ==> RefsOf(h[n])[k].Repr <= n.Repr - {n}
    ensures forall m :: m in n.Repr ==> m == n || Covers(RefsOf(h[n]), m)
  {
    hide RefsOf;
    var refs := RefsOf(h[n]);
    RefsApart(h[n]);
    forall k | 0 <= k < |refs| ensures Tree(h, refs[k]) && refs[k].Repr <= n.Repr - {n} {
      RefsMembers(h[n], refs[k]);
      var i :| 0 <= i < |h[n]| && h[n][i] == Ref(refs[k]);
      assert SlotOk(h, n, h[n][i]);
    }
    forall m | m in n.Repr && m != n ensures Covers(refs, m) {
      var i :| 0 <= i < |h[n]| && h[n][i].Ref? && m in h[n][i].node.Repr;
      RefsMembers(h[n], h[n][i].node);
    }
  }

  lemma PendingDisjoint(h: Heap, below: seq<Node>, top: Node, refs: seq<Node>)
    requires DisjointTrees(h, below + [top]) && DisjointTrees(h, refs)
    requires forall k :: 0 <= k < |refs| ==> refs[k].Repr <= top.Repr
    ensures DisjointTrees(h, below + refs)
  {
    hide Tree;
    var stack, stack' := below + [top], below + refs;
    assert stack[|below|] == top;
    forall k | 0 <= k < |stack'| ensures Tree(h, stack'[k]) {
      assert k < |below| ==> stack'[k] == stack[k];
    }
    forall k, l | 0 <= k < l < |stack'| ensures stack'[k].Repr !! stack'[l].Repr {
      if l < |below| {
        assert stack[k].Repr !! stack[l].Repr;
      } else if k < |below| {
        assert stack[k].Repr !! stack[|below|].Repr;
      } else {
        assert refs[k - |below|].Repr !! refs[l - |below|].Repr;
      }
    }
  }

  /** Visiting the top of the stack and pushing its parts loses no object. */
  lemma PopPending(h: Heap, all: set<Node>, visited: set<Node>, below: seq<Node>, top: Node)
    requires Pending(h, all, visited, below + [top])
    ensures Tree(h, top) && top in all - visited
    ensures Pending(h, all, visited + {top}, below + RefsOf(h[top]))
  {
    hide Tree;
    var stack := below + [top];
    assert stack[|below|] == top;
    TreeHasSelf(h, top);
    RefsOfTree(h, top);
    var refs := RefsOf(h[top]);
    PendingDisjoint(h, below, top, refs);
    var stack' := below + refs;
    forall k | 0 <= k < |stack'| ensures stack'[k].Repr <= all && stack'[k].Repr !! visited + {top} {
      if k < |below| {
        assert stack'[k] == stack[k] && stack[k].Repr !! stack[|below|].Repr;
      } else {
        assert stack'[k] == refs[k - |below|];
      }
    }
    forall m | m in all && m !in visited + {top} ensures Covers(stack', m) {
      PopCovers(below, top, refs, m);
    }
  }

  lemma TreeHasSelf(h: Heap, n: Node)
    requires Tree(h, n)
    ensures n in n.Repr && n.Repr <= h.Keys
  {
  }

  lemma PopCovers(below: seq<Node>, top: Node, refs: seq<Node>, m: Node)
    requires Covers(below + [top], m) && (m in top.Repr ==> m == top || Covers(refs, m)) && m != top
    ensures Covers(below + refs, m)
  {
    var stack, stack' := below + [top], below + refs;
    var k :| 0 <= k < |stack| && m in stack[k].Repr;
    if k < |below| {
      assert stack'[k] == stack[k];
    } else {
      var l :| 0 <= l < |refs| && m in refs[l].Repr;
      assert stack'[|below| + l] == refs[l];
    }
  }

  /** One object: its strings rewritten where it stands, its parts pushed. */
  method SweepNode(patterns: seq<Pattern>, node: Node, stack: seq<Node>, flags: (bool, bool))
    returns (stack': seq<Node>, flags': (bool, bool))
    modifies node
    ensures node.slots == SweptSlots(patterns, old(node.slots))
    ensures stack' == stack + RefsOf(old(node.slots))
    ensures flags'.0 == (flags.0 || AnyRedacted(patterns, old(node.slots)))
    ensures flags'.1 == (flags.1 || AnyTruncated(patterns, old(node.slots)))
  {
    hide Redacted, RefsOf, AnyRedacted, AnyTruncated;
    ghost var before := node.slots;
    stack', flags' := stack, flags;
    var i := 0;
    NothingYet(patterns, before);
    while i < |node.slots|
      invariant i <= |node.slots| == |before|
      invariant forall k :: 0 <= k < |before| ==> node.slots[k] == if k < i then SweptSlot(patterns, before[k]) else before[k]
      invariant stack' == stack + RefsOf(before[..i])
      invariant flags'.0 == (flags.0 || AnyRedacted(patterns, before[..i]))
      invariant flags'.1 == (flags.1 || AnyTruncated(patterns, before[..i]))
    {
      AnyGrows(patterns, before, i);
      RefsGrow(before, i);
      match node.slots[i] {
        case Ref(child) => stack' := stack' + [child];
        case Leaf(value) =>
          if value.Str? {
            var r := RedactText(patterns, value.s, MAX_TEXT_CHARS);
            if r.redacted {
              node.slots := node.slots[i := Leaf(Str(r.text))];
              flags' := (true, flags'.1);
            }
            flags' := (flags'.0, flags'.1 || r.truncated);
          }
      }
      i := i + 1;
    }
    assert before[..i] == before;
    assert node.slots == SweptSlots(patterns, before);
  }

  lemma NothingYet(patterns: seq<Pattern>, slots: seq<Slot>)
    ensures RefsOf(slots[..0]) == [] && !AnyRedacted(patterns, slots[..0]) && !AnyTruncated(patterns, slots[..0])
  {
  }

  lemma RefsGrow(slots: seq<Slot>, i: nat)
    requires i < |slots|
    ensures RefsOf(slots[..i + 1]) == RefsOf(slots[..i]) + (if slots[i].Ref? then [slots[i].node] else [])
  {
    assert slots[..i + 1][..i] == slots[..i];
  }

  lemma AnyGrows(patterns: seq<Pattern>, slots: seq<Slot>, i: nat)
    requires i < |slots|
    ensures AnyRedacted(patterns, slots[..i + 1]) <==> AnyRedacted(patterns, slots[..i]) || SlotRedacted(patterns, slots[i])
    ensures AnyTruncated(patterns, slots[..i + 1])
            <==> AnyTruncated(patterns, slots[..i]) || SlotTruncated(patterns, slots[i])
  {
    hide SlotRedacted, SlotTruncated;
    assert forall k :: 0 <= k < i ==> slots[..i + 1][k] == slots[..i][k];
    assert slots[..i + 1][i] == slots[i];
  }

  /** Visited objects are swept, the others are as they were. */
  ghost predicate SweptSoFar(patterns: seq<Pattern>, h: Heap, visited: set<Node>)
    requires visited <= h.Keys
    reads h.Keys
  {
    forall m :: m in h.Keys ==> m.slots == if m in visited then SweptSlots(patterns, h[m]) else h[m]
  }

  /** The flags are those of the visited objects. */
  ghost predicate FlagsSoFar(patterns: seq<Pattern>, h: Heap, visited: set<Node>, flags: (bool, bool))
    requires visited <= h.Keys
  {
    && (flags.0 <==> exists m :: m in visited && AnyRedacted(patterns, h[m]))
    && (flags.1 <==> exists m :: m in visited && AnyTruncated(patterns, h[m]))
  }

  lemma FlagsMore(patterns: seq<Pattern>, h: Heap, visited: set<Node>, flags: (bool, bool), top: Node, flags': (bool, bool))
    requires visited <= h.Keys && top in h.Keys && FlagsSoFar(patterns, h, visited, flags)
    requires flags'.0 == (flags.0 || AnyRedacted(patterns, h[top]))
    requires flags'.1 == (flags.1 || AnyTruncated(patterns, h[top]))
    ensures FlagsSoFar(patterns, h, visited + {top}, flags')
  {
    hide AnyRedacted, AnyTruncated;
  }

  /** The sweep rewrites the objects of the document, and nothing else, where they stand:
      the document becomes the recursive rewriting of what it was, and the flags say
      whether any string was redacted and whether any is over the cap. */
  method RedactDocument(patterns: seq<Pattern>, document: Node) returns (redacted: bool, truncated: bool)
    requires document.Valid()
    modifies document.Repr
    ensures document.Valid() && document.View() == Swept(patterns, old(document.View()))
    ensures redacted == SomeRedacted(patterns, old(document.View()))
    ensures truncated == SomeTruncated(patterns, old(document.View()))
  {
    hide Tree, ViewIn, Swept, SomeRedacted, SomeTruncated, SweptSlots, RefsOf, Pending, FlagsSoFar;
    ghost var h, all := Snapshot(document.Repr), document.Repr;
    ghost var visited: set<Node> := {};
    var flags := (false, false);
    var stack := [document];
    StartPending(patterns, h, document);
    while stack != []
      invariant Pending(h, all, visited, stack) && visited <= all
      invariant SweptSoFar(patterns, h, visited) && FlagsSoFar(patterns, h, visited, flags)
      decreases all - visited
    {
      var n := |stack| - 1;
      var node, below := stack[n], stack[..n];
      assert stack == below + [node];
      PopPending(h, all, visited, below, node);
      ghost var before := flags;
      stack, flags := SweepNode(patterns, node, below, flags);
      FlagsMore(patterns, h, visited, before, node, flags);
      visited := visited + {node};
    }
    AllVisited(h, all, visited);
    FlagsOf(patterns, h, document);
    FlagsAll(patterns, h, document, flags);
    SweptHeap(patterns, h, Snapshot(document.Repr), document);
    redacted, truncated := flags.0, flags.1;
  }

  lemma StartPending(patterns: seq<Pattern>, h: Heap, document: Node)
    requires Tree(h, document) && h.Keys == document.Repr
    ensures Pending(h, document.Repr, {}, [document]) && FlagsSoFar(patterns, h, {}, (false, false))
  {
    hide Tree;
    assert [document][0] == document;
  }

  lemma AllVisited(h: Heap, all: set<Node>, visited: set<Node>)
    requires Pending(h, all, visited, [])
    ensures visited == all
  {
  }

  lemma FlagsAll(patterns: seq<Pattern>, h: Heap, document: Node, flags: (bool, bool))
    requires document.Repr <= h.Keys && FlagsSoFar(patterns, h, document.Repr, flags)
    ensures flags.0 <==> exists m :: m in document.Repr && AnyRedacted(patterns, h[m])
    ensures flags.1 <==> exists m :: m in document.Repr && AnyTruncated(patterns, h[m])
  {
  }

  /** The document as a value. */
  method ToJson(n: Node) returns (j: Json)
    requires n.Valid()
    ensures j == n.View()
    decreases n.Repr
  {
    hide Tree, ViewIn, Snapshot;
    ValidHasSelf(n);
    var children: seq<Json> := [];
    var i := 0;
    while i < |n.slots|
      invariant |children| == i <= |n.slots|
      invariant forall k :: 0 <= k < i ==> children[k] == n.View().children[k]
    {
      var child;
      match n.slots[i] {
        case Leaf(v) =>
          LeafOf(n, i);
          child := v;
        case Ref(c) =>
          ChildOf(n, i);
          child := ToJson(c);
      }
      children := children + [child];
      i := i + 1;
    }
    assert children == n.View().children;
    j := Coll(n.kind, children);
  }
}
