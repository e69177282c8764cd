/**
 deepMerge and setPath (internal/cli/create.go): in-place updates of a tree of Go
 maps.

 A map is an object with a mutable `fields`; a list is a value that may hold maps.
 Neither function writes into a list, but a list that is stored is stored as it is,
 so the maps inside it come to belong to both trees.
 */
module DeepMerge {
  import opened Wrappers
  import opened Json

  datatype Val = Leaf(v: Json) | List(items: seq<Val>) | Ref(o: Node)

  /** A tree as a value.  Maps inside lists keep their identity. */
  datatype Tree =
    | Plain(v: Json)
    | Items(items: seq<Tree>)
    | Map(fields: map<string, Tree>)
    | Held(o: Node, held: map<string, Tree>)

  class Node {
    var fields: map<string, Val>
    /** This map and the maps below it, through maps alone. */
    ghost var repr: set<Node>
    /** The maps inside the lists of the tree. */
    ghost var held: set<Node>

    ghost predicate Valid()
      reads this, repr, held
      decreases repr + held, 2
    {
      && this in repr && repr !! held
      && (forall k :: k in fields ==> ChildOk(fields[k]))
      && (forall k, l :: k in fields && l in fields && k != l && fields[k].Ref? && fields[l].Ref? ==>
            fields[k].o.repr !! fields[l].o.repr)
    }

    ghost predicate ChildOk(c: Val)
      requires this in repr && repr !! held
      reads this, repr, held
      decreases repr + held, 1
    {
      match c
      case Ref(o) => o in repr && this !in o.repr && o.repr < repr && o.held <= held && o.Valid()
      case _ => ItemOk(c, held)
    }

    /** What the fields hold. */
    ghost function Fields(): (m: map<string, Tree>)
      requires Valid()
      reads this, repr, held
      ensures m.Keys == fields.Keys
      decreases repr + held, 2
    {
      map k | k in fields :: ChildValue(fields[k])
    }

    ghost function ChildValue(c: Val): Tree
      requires this in repr && repr !! held && ChildOk(c)
      reads this, repr, held
      decreases repr + held, 1
    {
      match c
      case Ref(o) => Map(o.Fields())
      case _ => ItemValue(c, held)
    }

    /** The map as an item of a list: every map below it lies inside that list too. */
    ghost function AsHeld(): Tree
      requires Valid()
      reads this, repr, held
      decreases repr + held, 2
    {
      Held(this, map k | k in fields :: HeldValue(fields[k]))
    }

    ghost function HeldValue(c: Val): Tree
      requires this in repr && repr !! held && ChildOk(c)
      reads this, repr, held
      decreases repr + held, 1
    {
      match c
      case Ref(o) => o.AsHeld()
      case _ => ItemValue(c, held)
    }

    constructor ()
      ensures Valid() && fields == map[] && repr == {this} && held == {}
    {
      fields, repr, held := map[], {this}, {};
    }
  }

  /** An item of a list, whose maps are all in `held`. */
  ghost predicate ItemOk(c: Val, held: set<Node>)
    reads held
    decreases held, 3, c
  {
    match c
    case Leaf(v) => v.Scalar()
    case List(items) => forall i :: 0 <= i < |items| ==> ItemOk(items[i], held)
    case Ref(o) => o in held && o.repr + o.held <= held && o.Valid()
  }

  ghost function ItemValue(c: Val, held: set<Node>): Tree
    requires ItemOk(c, held)
    reads held
    decreases held, 3, c
  {
    match c
    case Leaf(v) => Plain(v)
    case List(items) =>
      Items(seq(|items|, i requires 0 <= i < |items| && ItemOk(items[i], held) reads held =>
                  ItemValue(items[i], held)))
    case Ref(o) => o.AsHeld()
  }

  /** More maps elsewhere change nothing. */
  lemma {:induction false} Widen(c: Val, held: set<Node>, more: set<Node>)
    requires ItemOk(c, held) && held <= more
    ensures ItemOk(c, more) && ItemValue(c, more) == ItemValue(c, held)
    decreases c
  {
    if c.List? {
      forall i | 0 <= i < |c.items|
        ensures ItemOk(c.items[i], more) && ItemValue(c.items[i], more) == ItemValue(c.items[i], held)
      {
        Widen(c.items[i], held, more);
      }
    }
  }

  // ------------------------------------------------------------------
  // What merging computes
  // ------------------------------------------------------------------

  /** Objects merge key by key; everything else of `b` replaces what `a` has. */
  function Merged(a: map<string, Tree>, b: Tree): map<string, Tree>
    requires b.Map?
    decreases b
  {
    map k | k in a.Keys + b.fields.Keys :: MergedAt(a, b, k)
  }

  function MergedAt(a: map<string, Tree>, b: Tree, k: string): Tree
    requires b.Map? && (k in a || k in b.fields)
    decreases b, 0
  {
    if k !in b.fields then a[k]
    else if b.fields[k].Map? then Map(Merged(if k in a && a[k].Map? then a[k].fields else map[], b.fields[k]))
    else b.fields[k]
  }

  /** The merge with only the keys outside `todo` done. */
  ghost function MergedSome(a: map<string, Tree>, b: Tree, todo: set<string>): map<string, Tree>
    requires b.Map?
  {
    map k | k in a.Keys + (b.fields.Keys - todo) :: if k in b.fields && k !in todo then MergedAt(a, b, k) else a[k]
  }

  lemma MergedNext(a: map<string, Tree>, b: Tree, todo: set<string>, k: string)
    requires b.Map? && k in todo && todo <= b.fields.Keys
    ensures var m := MergedSome(a, b, todo);
            m[k := MergedAt(m, b, k)] == MergedSome(a, b, todo - {k})
  {
    var m := MergedSome(a, b, todo);
    assert k in m <==> k in a;
    assert MergedAt(m, b, k) == MergedAt(a, b, k);
  }

  lemma MergedEnds(a: map<string, Tree>, b: Tree)
    requires b.Map?
    ensures MergedSome(a, b, b.fields.Keys) == a && MergedSome(a, b, {}) == Merged(a, b)
  {
  }

  /** What every update of `dst` keeps: a valid tree, grown only by new maps. */
  twostate predicate Grown(dst: Node)
    reads dst, dst.repr, dst.held
  {
    dst.Valid() && fresh(dst.repr - old(dst.repr)) && old(dst.repr) <= dst.repr && old(dst.held) <= dst.held
  }

  /** A child and its value; its maps are among `maps`, those inside its lists among `held`. */
  ghost predicate Holds(c: Val, v: Tree, maps: set<Node>, held: set<Node>)
    reads maps, held
  {
    match c
    case Ref(o) => o in maps && o.repr <= maps && o.held <= held && o.Valid() && Map(o.Fields()) == v
    case _ => ItemOk(c, held) && ItemValue(c, held) == v
  }

  /** All children but one, which share no map. */
  ghost predicate HoldBut(fields: map<string, Val>, k: string, values: map<string, Tree>, maps: set<Node>,
                          held: set<Node>)
    reads maps, held
  {
    && fields.Keys == values.Keys
    && (forall l :: l in fields && l != k ==> Holds(fields[l], values[l], maps, held))
    && (forall l, m :: l in fields && m in fields && k != l && l != m && m != k && fields[l].Ref? && fields[m].Ref? ==>
          fields[l].o.repr !! fields[m].o.repr)
  }

  /** The maps of a tree that are neither its root nor in the child under `k`. */
  ghost function Beside(n: Node, k: string): set<Node>
    reads n, if k in n.fields && n.fields[k].Ref? then {n.fields[k].o} else {}
  {
    n.repr - {n} - if k in n.fields && n.fields[k].Ref? then n.fields[k].o.repr else {}
  }

  lemma ChildrenHold(n: Node, k: string)
    requires n.Valid()
    ensures HoldBut(n.fields, k, n.Fields(), Beside(n, k), n.held)
  {
    forall l | l in n.fields && l != k
      ensures Holds(n.fields[l], n.Fields()[l], Beside(n, k), n.held)
    {
      var c := n.fields[l];
      assert n.ChildOk(c) && n.Fields()[l] == n.ChildValue(c);
      if c.Ref? {
        assert c.o.Valid() && c.o in c.o.repr;
        assert k in n.fields && n.fields[k].Ref? ==> c.o.repr !! n.fields[k].o.repr;
      }
    }
  }

  /** A tree is valid when one child is, and the others are made of other maps. */
  lemma Assembled(n: Node, k: string, was: map<string, Val>, values: map<string, Tree>, maps: set<Node>,
                  held: set<Node>)
    requires n in n.repr && n.repr !! n.held && maps <= n.repr - {n} && held <= n.held
    requires k in n.fields && n.fields == was[k := n.fields[k]]
    requires n.ChildOk(n.fields[k]) && (n.fields[k].Ref? ==> n.fields[k].o.repr !! maps)
    requires HoldBut(was, k, values, maps, held)
    ensures n.Valid() && n.Fields() == values[k := n.ChildValue(n.fields[k])]
  {
    forall l | l in was && l != k
      ensures n.ChildOk(was[l]) && n.ChildValue(was[l]) == values[l]
      ensures was[l].Ref? ==> was[l].o.repr <= maps
    {
      assert Holds(was[l], values[l], maps, held);
      ChildHolds(n, was[l], values[l], maps, held);
    }
  }

  lemma ChildHolds(n: Node, c: Val, v: Tree, maps: set<Node>, held: set<Node>)
    requires n in n.repr && n.repr !! n.held && maps <= n.repr - {n} && held <= n.held && Holds(c, v, maps, held)
    ensures n.ChildOk(c) && n.ChildValue(c) == v
  {
    if !c.Ref? {
      Widen(c, held, n.held);
    }
  }

  /**
   deepMerge: `dst` becomes the merge, `src` keeps its value, and no map that may
   still be written through `dst` belongs to `src`.
   */
  method DeepMerge(dst: Node, src: Node)
    requires dst.Valid() && src.Valid() && dst.repr !! src.repr + src.held
    modifies dst.repr
    ensures Grown(dst) && dst.held <= old(dst.held) + old(src.held)
    ensures dst.Fields() == Merged(old(dst.Fields()), Map(old(src.Fields())))
    ensures src.Valid() && src.Fields() == old(src.Fields())
    ensures src.repr == old(src.repr) && src.held == old(src.held) && dst.repr !! src.repr + src.held
    decreases src.repr, 2
  {
    ghost var a, b := dst.Fields(), Map(src.Fields());
    var todo := src.fields.Keys;
    MergedEnds(a, b);
    while todo != {}
      invariant todo <= src.fields.Keys && src.Valid() && src.Fields() == b.fields
      invariant Grown(dst) && dst.held <= old(dst.held) + src.held
      invariant dst.Fields() == MergedSome(a, b, todo)
      decreases todo
    {
      var k :| k in todo;
      MergedNext(a, b, todo, k);
      MergeKey(dst, src, k);
      todo := todo - {k};
    }
  }

  /** One key of the loop. */
  method MergeKey(dst: Node, src: Node, k: string)
    requires dst.Valid() && src.Valid() && dst.repr !! src.repr + src.held && k in src.fields
    modifies dst.repr
    ensures Grown(dst) && dst.held <= old(dst.held) + old(src.held)
    ensures dst.Fields() == old(dst.Fields())[k := MergedAt(old(dst.Fields()), Map(old(src.Fields())), k)]
    decreases src.repr, 1
  {
    ghost var b := Map(src.Fields());
    assert src.ChildOk(src.fields[k]) && b.fields[k] == src.ChildValue(src.fields[k]);
    match src.fields[k]
    case Ref(sub) =>
      if k in dst.fields && dst.fields[k].Ref? {
        MergeInto(dst, k, sub);
      } else {
        var clone := new Node();
        DeepMerge(clone, sub);
        PutTree(dst, k, clone);
      }
    case c =>
      PutItem(dst, k, c, src.held);
  }

  /** A scalar or a list is stored as it is, maps and all. */
  method PutItem(dst: Node, k: string, c: Val, ghost held: set<Node>)
    requires dst.Valid() && !c.Ref? && ItemOk(c, held) && held !! dst.repr
    modifies dst
    ensures Grown(dst) && dst.repr == old(dst.repr) && dst.held == old(dst.held) + held
    ensures dst.Fields() == old(dst.Fields())[k := old(ItemValue(c, held))]
  {
    ghost var was, values, maps := dst.fields, dst.Fields(), Beside(dst, k);
    ChildrenHold(dst, k);
    dst.fields, dst.held := dst.fields[k := c], dst.held + held;
    Widen(c, held, dst.held);
    Assembled(dst, k, was, values, maps, old(dst.held));
  }

  /** Hanging a whole tree under a key makes its maps part of the tree. */
  method PutTree(dst: Node, k: string, sub: Node)
    requires dst.Valid() && sub.Valid() && sub.repr !! dst.repr + dst.held && sub.held !! dst.repr
    modifies dst
    ensures dst.Valid() && dst.repr == old(dst.repr) + old(sub.repr) && dst.held == old(dst.held) + old(sub.held)
    ensures dst.Fields() == old(dst.Fields())[k := Map(old(sub.Fields()))]
  {
    ghost var was, values, maps := dst.fields, dst.Fields(), Beside(dst, k);
    ChildrenHold(dst, k);
    dst.fields, dst.repr, dst.held := dst.fields[k := Ref(sub)], dst.repr + sub.repr, dst.held + sub.held;
    Assembled(dst, k, was, values, maps, old(dst.held));
  }

  /** The object already under `k` is merged where it is. */
  method MergeInto(dst: Node, k: string, sub: Node)
    requires dst.Valid() && sub.Valid() && dst.repr !! sub.repr + sub.held && k in dst.fields && dst.fields[k].Ref?
    modifies dst.repr
    ensures Grown(dst) && dst.held <= old(dst.held) + old(sub.held)
    ensures k in old(dst.Fields()) && old(dst.Fields())[k].Map?
    ensures dst.Fields() == old(dst.Fields())[k := Map(Merged(old(dst.Fields())[k].fields, Map(old(sub.Fields()))))]
    decreases sub.repr, 3
  {
    var child := dst.fields[k].o;
    ghost var values, maps, held := dst.Fields(), Beside(dst, k), dst.held;
    ChildrenHold(dst, k);
    assert dst.ChildOk(dst.fields[k]);
    DeepMerge(child, sub);
    Regrown(dst, k, child, values, maps, held);
  }

  /** The tree under `k` has changed, and the rest has not: the whole is brought up to date. */
  ghost method Regrown(dst: Node, k: string, child: Node, values: map<string, Tree>, maps: set<Node>, held: set<Node>)
    requires k in dst.fields && dst.fields[k] == Ref(child) && child.Valid()
    requires dst in dst.repr && dst !in child.repr + child.held && dst !in maps && maps <= dst.repr && held == dst.held
    requires maps !! child.repr && dst.repr + child.repr !! held + child.held
    requires HoldBut(dst.fields, k, values, maps, held)
    modifies dst`repr, dst`held
    ensures dst.Valid() && dst.repr == old(dst.repr) + child.repr && dst.held == old(dst.held) + child.held
    ensures dst.Fields() == values[k := Map(old(child.Fields()))]
  {
    dst.repr, dst.held := dst.repr + child.repr, dst.held + child.held;
    Assembled(dst, k, dst.fields, values, maps, held);
  }

  // ------------------------------------------------------------------
  // setPath
  // ------------------------------------------------------------------

  /** The object a dotted assignment leaves behind. */
  function Assigned(a: map<string, Tree>, parts: seq<string>, v: Tree): map<string, Tree>
    requires parts != []
    decreases |parts|
  {
    var p := parts[0];
    var below := if p in a && a[p].Map? then a[p].fields else map[];
    if |parts| > 1 then a[p := Map(Assigned(below, parts[1..], v))]
    else if v.Map? && p in a && a[p].Map? then a[p := Map(Merged(below, v))]
    else a[p := v]
  }

  /** A value that can be hung into the tree: its maps are not in it yet; those inside lists are in `held`. */
  ghost predicate Apart(value: Val, held: set<Node>, cur: Node)
    reads cur, held, if value.Ref? then {value.o} + value.o.repr else {}
  {
    && held !! cur.repr
    && match value
       case Ref(o) => o.held == held && o.Valid() && o.repr !! cur.repr + cur.held
       case _ => ItemOk(value, held)
  }

  ghost function Denoted(value: Val, held: set<Node>): Tree
    requires if value.Ref? then value.o.held == held && value.o.Valid() else ItemOk(value, held)
    reads held, if value.Ref? then {value.o} + value.o.repr else {}
  {
    match value
    case Ref(o) => Map(o.Fields())
    case _ => ItemValue(value, held)
  }

  ghost function Maps(value: Val): set<Node>
    reads if value.Ref? then {value.o} else {}
  {
    if value.Ref? then value.o.repr else {}
  }

  /** What setPath keeps: a valid tree, grown by the maps of the value and new ones. */
  twostate predicate Took(cur: Node, value: Val, held: set<Node>)
    reads cur, cur.repr, cur.held
  {
    && cur.Valid() && old(cur.repr) <= cur.repr && old(cur.held) <= cur.held <= old(cur.held) + held
    && fresh(cur.repr - old(cur.repr) - old(Maps(value)))
  }

  /**
   setPath: each call is one round of the loop over the parts, on the next object
   down.  An object stored as it is becomes part of the tree; one that meets an
   object already there is merged into it.
   */
  method SetPath(cur: Node, parts: seq<string>, value: Val, ghost held: set<Node>)
    requires parts != [] && cur.Valid() && Apart(value, held, cur)
    modifies cur.repr
    ensures Took(cur, value, held)
    ensures cur.Fields() == Assigned(old(cur.Fields()), parts, old(Denoted(value, held)))
    decreases |parts|
  {
    var p := parts[0];
    if |parts| == 1 {
      SetLast(cur, p, value, held);
      return;
    }
    ghost var was := cur.Fields();
    EnsureObject(cur, p);
    AssignedThrough(was, cur.Fields(), parts, Denoted(value, held));
    SetBelow(cur, parts, value, held);
  }

  /** A part that leads to no object gets an empty one. */
  method EnsureObject(cur: Node, p: string)
    requires cur.Valid()
    modifies cur
    ensures Grown(cur) && cur.held == old(cur.held) && p in cur.fields && cur.fields[p].Ref?
    ensures var was := old(cur.Fields());
            cur.Fields() == if p in was && was[p].Map? then was else was[p := Map(map[])]
  {
    assert p in cur.fields ==> cur.ChildOk(cur.fields[p]);
    if !(p in cur.fields && cur.fields[p].Ref?) {
      var next := new Node();
      PutTree(cur, p, next);
    }
  }

  lemma AssignedThrough(a: map<string, Tree>, a': map<string, Tree>, parts: seq<string>, v: Tree)
    requires |parts| > 1
    requires a' == if parts[0] in a && a[parts[0]].Map? then a else a[parts[0] := Map(map[])]
    ensures Assigned(a', parts, v) == Assigned(a, parts, v)
  {
  }

  method SetLast(cur: Node, p: string, value: Val, ghost held: set<Node>)
    requires cur.Valid() && Apart(value, held, cur)
    modifies cur.repr
    ensures Took(cur, value, held)
    ensures cur.Fields() == Assigned(old(cur.Fields()), [p], old(Denoted(value, held)))
  {
    assert p in cur.fields ==> cur.ChildOk(cur.fields[p]);
    match value
    case Ref(o) =>
      if p in cur.fields && cur.fields[p].Ref? {
        MergeInto(cur, p, o);
      } else {
        PutTree(cur, p, o);
      }
    case _ => PutItem(cur, p, value, held);
  }

  /** The rest of the loop, below an object that is there. */
  method SetBelow(cur: Node, parts: seq<string>, value: Val, ghost held: set<Node>)
    requires |parts| > 1 && cur.Valid() && Apart(value, held, cur)
    requires parts[0] in cur.fields && cur.fields[parts[0]].Ref?
    modifies cur.repr
    ensures Took(cur, value, held)
    ensures parts[0] in old(cur.Fields()) && old(cur.Fields())[parts[0]].Map?
    ensures cur.Fields() == Assigned(old(cur.Fields()), parts, old(Denoted(value, held)))
    decreases |parts|, 0
  {
    var p := parts[0];
    var child := cur.fields[p].o;
    ghost var values, maps, inLists := cur.Fields(), Beside(cur, p), cur.held;
    ChildrenHold(cur, p);
    assert cur.ChildOk(cur.fields[p]);
    SetPath(child, parts[1..], value, held);
    Regrown(cur, p, child, values, maps, inLists);
  }

  // ------------------------------------------------------------------
  // What two trees share
  // ------------------------------------------------------------------

  /** The map `n` lies inside a list of the value. */
  predicate Inside(t: Tree, n: Node) {
    match t
    case Plain(_) => false
    case Items(items) => exists i :: 0 <= i < |items| && Inside(items[i], n)
    case Map(fields) => exists k :: k in fields && Inside(fields[k], n)
    case Held(o, held) => o == n || exists k :: k in held && Inside(held[k], n)
  }

  lemma {:induction false} InsideFields(n: Node, m: Node)
    requires n.Valid() && Inside(Map(n.Fields()), m)
    ensures m in n.held
    decreases n.repr + n.held, 2
  {
    var k :| k in n.fields && Inside(n.Fields()[k], m);
    var c := n.fields[k];
    assert n.ChildOk(c) && n.Fields()[k] == n.ChildValue(c);
    if c.Ref? {
      InsideFields(c.o, m);
    } else {
      InsideItem(c, n.held, m);
    }
  }

  lemma {:induction false} InsideItem(c: Val, held: set<Node>, m: Node)
    requires ItemOk(c, held) && Inside(ItemValue(c, held), m)
    ensures m in held
    decreases held, 3, c
  {
    match c
    case Leaf(_) =>
    case List(items) =>
      var i :| 0 <= i < |items| && Inside(ItemValue(items[i], held), m);
      InsideItem(items[i], held, m);
    case Ref(o) => InsideHeld(o, m);
  }

  lemma {:induction false} InsideHeld(n: Node, m: Node)
    requires n.Valid() && Inside(n.AsHeld(), m)
    ensures m in n.repr + n.held
    decreases n.repr + n.held, 2
  {
    if m != n {
      var k :| k in n.fields && Inside(n.AsHeld().held[k], m);
      var c := n.fields[k];
      assert n.ChildOk(c) && n.AsHeld().held[k] == n.HeldValue(c);
      if c.Ref? {
        InsideHeld(c.o, m);
      } else {
        InsideItem(c, n.held, m);
      }
    }
  }

  /** After a merge every map inside a list of the source is inside one of the target, and no others are new there. */
  lemma {:induction false} MergedInside(a: map<string, Tree>, b: Tree, n: Node)
    requires b.Map?
    ensures Inside(b, n) ==> Inside(Map(Merged(a, b)), n)
    ensures Inside(Map(Merged(a, b)), n) ==> Inside(b, n) || Inside(Map(a), n)
    decreases b
  {
    forall k | k in a || k in b.fields
      ensures k in b.fields && Inside(b.fields[k], n) ==> Inside(MergedAt(a, b, k), n)
      ensures Inside(MergedAt(a, b, k), n) ==> (k in b.fields && Inside(b.fields[k], n)) || (k in a && Inside(a[k], n))
    {
      if k in b.fields && b.fields[k].Map? {
        MergedInside(if k in a && a[k].Map? then a[k].fields else map[], b.fields[k], n);
      }
    }
    if k :| k in b.fields && Inside(b.fields[k], n) {
      assert Inside(Merged(a, b)[k], n);
    }
    if k :| k in Merged(a, b) && Inside(Merged(a, b)[k], n) {
      assert Inside(MergedAt(a, b, k), n);
    }
  }

  /** The map belongs to the tree. */
  ghost predicate Of(n: Node, m: Node)
    requires n.Valid()
    reads n, n.repr, n.held
  {
    m in n.repr || Inside(Map(n.Fields()), m)
  }

  /**
   What a merge leaves two trees sharing, when they shared nothing before: exactly
   the maps inside the lists of the source.  So they stay disjoint if and only if the
   source has no map inside a list.
   */
  lemma SharedExactly(dst: Node, src: Node, a: map<string, Tree>)
    requires dst.Valid() && src.Valid() && dst.repr !! src.repr + src.held
    requires dst.Fields() == Merged(a, Map(src.Fields()))
    requires forall m :: Inside(Map(a), m) ==> m !in src.repr + src.held
    ensures forall m :: Of(dst, m) && Of(src, m) <==> Inside(Map(src.Fields()), m)
  {
    forall m
      ensures Of(dst, m) && Of(src, m) <==> Inside(Map(src.Fields()), m)
    {
      MergedInside(a, Map(src.Fields()), m);
      if Inside(Map(src.Fields()), m) {
        InsideFields(src, m);
      }
    }
  }

  // ------------------------------------------------------------------
  // Laws
  // ------------------------------------------------------------------

  /** The value under nested keys. */
  function At(j: Tree, ks: seq<string>): Option<Tree>
    decreases |ks|
  {
    if ks == [] then Some(j)
    else if j.Map? && ks[0] in j.fields then At(j.fields[ks[0]], ks[1..])
    else None
  }

  datatype Side = Source | Target | Both

  /**
   Which side decides a path: the source where it holds a non-object on the way,
   the target where the source holds nothing, both where the source holds an object.
   */
  function Decides(b: Tree, ks: seq<string>): Side
    decreases |ks|
  {
    if !b.Map? then Source
    else if ks == [] then Both
    else if ks[0] !in b.fields then Target
    else Decides(b.fields[ks[0]], ks[1..])
  }

  function ObjectAt(a: map<string, Tree>, ks: seq<string>): map<string, Tree> {
    var v := At(Map(a), ks);
    if v.Some? && v.value.Map? then v.value.fields else map[]
  }

  /** What is at any path after a merge. */
  lemma {:induction false} MergeLaw(a: map<string, Tree>, b: Tree, ks: seq<string>)
    requires b.Map?
    ensures Decides(b, ks).Source? ==> At(Map(Merged(a, b)), ks) == At(b, ks)
    ensures Decides(b, ks).Target? ==> At(Map(Merged(a, b)), ks) == At(Map(a), ks)
    ensures Decides(b, ks).Both? ==>
              && At(b, ks).Some? && At(b, ks).value.Map?
              && At(Map(Merged(a, b)), ks) == Some(Map(Merged(ObjectAt(a, ks), At(b, ks).value)))
    decreases |ks|
  {
    if ks != [] && ks[0] in b.fields {
      var k, rest := ks[0], ks[1..];
      assert Merged(a, b)[k] == MergedAt(a, b, k);
      if b.fields[k].Map? {
        var below := if k in a && a[k].Map? then a[k].fields else map[];
        MergeLaw(below, b.fields[k], rest);
        if k in a {
          NotBelow(a[k], rest);
        }
        EmptyBelow(rest);
        assert rest == [] ==> Decides(b.fields[k], rest).Both?;
      } else {
        NotBelow(b.fields[k], rest);
        assert Decides(b.fields[k], rest).Source?;
      }
    }
  }

  lemma NotBelow(v: Tree, ks: seq<string>)
    ensures !v.Map? ==> At(v, ks) == if ks == [] then Some(v) else None
  {
  }

  lemma EmptyBelow(ks: seq<string>)
    ensures ks != [] ==> At(Map(map[]), ks).None?
    ensures ObjectAt(map[], ks) == map[]
  {
  }

  /** Merging into nothing copies. */
  lemma {:induction false} MergeIntoEmpty(b: Tree)
    requires b.Map?
    ensures Merged(map[], b) == b.fields
    decreases b
  {
    forall k | k in b.fields
      ensures MergedAt(map[], b, k) == b.fields[k]
    {
      if b.fields[k].Map? {
        MergeIntoEmpty(b.fields[k]);
      }
    }
  }

  /** Merging the same object again changes nothing. */
  lemma {:induction false} MergeTwice(a: map<string, Tree>, b: Tree)
    requires b.Map?
    ensures Merged(Merged(a, b), b) == Merged(a, b)
    decreases b
  {
    var m := Merged(a, b);
    forall k | k in m
      ensures MergedAt(m, b, k) == m[k]
    {
      assert m[k] == MergedAt(a, b, k);
      if k in b.fields && b.fields[k].Map? {
        MergeTwice(if k in a && a[k].Map? then a[k].fields else map[], b.fields[k]);
      }
    }
    assert Merged(m, b).Keys == m.Keys;
  }

  /** After an assignment the path holds the value, or the merge with the object it met. */
  lemma {:induction false} AssignedHere(a: map<string, Tree>, parts: seq<string>, v: Tree)
    requires parts != []
    ensures At(Map(Assigned(a, parts, v)), parts) ==
            Some(if v.Map? && At(Map(a), parts).Some? && At(Map(a), parts).value.Map?
                 then Map(Merged(At(Map(a), parts).value.fields, v)) else v)
    decreases |parts|
  {
    var below := if parts[0] in a && a[parts[0]].Map? then a[parts[0]].fields else map[];
    if |parts| > 1 {
      AssignedHere(below, parts[1..], v);
      if parts[0] in a {
        NotBelow(a[parts[0]], parts[1..]);
      }
      EmptyBelow(parts[1..]);
    } else {
      assert parts[1..] == [];
    }
  }

  /** And every path that is neither above nor below it is untouched. */
  lemma {:induction false} AssignedElsewhere(a: map<string, Tree>, parts: seq<string>, v: Tree, ks: seq<string>)
    requires parts != [] && !(parts <= ks) && !(ks <= parts)
    ensures At(Map(Assigned(a, parts, v)), ks) == At(Map(a), ks)
    decreases |parts|
  {
    if parts[0] == ks[0] {
      assert parts == [parts[0]] + parts[1..] && ks == [ks[0]] + ks[1..];
      assert |parts| > 1 && ks[1..] != [];
      var below := if parts[0] in a && a[parts[0]].Map? then a[parts[0]].fields else map[];
      AssignedElsewhere(below, parts[1..], v, ks[1..]);
      if parts[0] in a {
        NotBelow(a[parts[0]], ks[1..]);
      }
      EmptyBelow(ks[1..]);
    }
  }
}
