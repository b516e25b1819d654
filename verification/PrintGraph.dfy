// The values print_r walks over, and the finite tree that guarded printing makes of them.
module PrintGraph {
  // Arrays, objects and references may lead back to themselves.

  datatype Option<T> = None | Some(value: T)

  /** Who may see a property; only shown for objects. */
  datatype Access = Public | Protected | Private(className: string)

  /** A number, or a name with the property name and access that it encodes. */
  datatype Key = Num(n: int) | Name(raw: string, property: string, access: Access)

  datatype EnumKind = NotEnum | Enum(backing: string)

  /** A scalar, given by its string; or a counted container. */
  datatype Value = Scalar(text: string) | At(node: Node)

  datatype Entry = Entry(key: Key, value: Value)

  /** `properties` and `debug` are the tables for flat and for nested printing. */
  datatype Shape =
    | Array(immutable: bool, entries: seq<Entry>)
    | Object(className: string, kind: EnumKind, usesGuards: bool,
             properties: Option<seq<Entry>>, debug: Option<seq<Entry>>)
    | Reference(value: Value)

  /** A container with its flag GC_PROTECTED, and the guard of an object whose class has guards. */
  class Node {
    var shape: Shape
    var protected: bool
    var guard: bool
  }

  /** What is printed does not change meanwhile. The rank orders references and immutable arrays, which are not
      guarded, below what they hold. */
  datatype World = World(shapes: map<Node, Shape>, rank: map<Node, nat>, cap: nat, flat: bool)

  /** References and immutable arrays are looked through without a guard. */
  predicate Unguarded(x: Shape) {
    x.Reference? || (x.Array? && x.immutable)
  }

  function Table(x: Shape, flat: bool): (r: Option<seq<Entry>>) {
    match x
    case Array(_, entries) => Some(entries)
    case Object(_, _, _, properties, debug) => if flat then properties else debug
    case Reference(_) => None
  }

  function EntriesOf(x: Shape, flat: bool): seq<Entry> {
    match Table(x, flat)
    case None => []
    case Some(entries) => entries
  }

  predicate Known(w: World, v: Value) {
    v.At? ==> v.node in w.shapes && v.node in w.rank
  }

  function Level(w: World, v: Value): (r: nat)
    requires Known(w, v)
  {
    if v.Scalar? then 0 else if Unguarded(w.shapes[v.node]) then w.rank[v.node] + 2 else 1
  }

  /** One value held by node n: in bounds, and below n if n is not guarded. */
  predicate HeldOk(w: World, n: Node, v: Value)
    requires n in w.shapes && n in w.rank
  {
    Known(w, v) && Level(w, v) < w.cap && (Unguarded(w.shapes[n]) ==> Level(w, v) < w.rank[n] + 2)
  }

  predicate NodeOk(w: World, n: Node)
    requires n in w.shapes && n in w.rank
  {
    && (w.shapes[n].Reference? ==> HeldOk(w, n, w.shapes[n].value))
    && (forall i :: 0 <= i < |EntriesOf(w.shapes[n], w.flat)| ==> HeldOk(w, n, EntriesOf(w.shapes[n], w.flat)[i].value))
  }

  /** Closed, and no cycle of references and immutable arrays alone. */
  predicate Sound(w: World) {
    w.rank.Keys == w.shapes.Keys && forall n :: n in w.shapes ==> NodeOk(w, n)
  }

  // ---------- the tree ----------

  datatype Head = ArrayHead | ObjectHead(className: string, kind: EnumKind)

  datatype Tree = Plain(text: string) | Marked(head: Head) | Opened(head: Head, lines: seq<Line>)

  datatype Line = Line(key: Key, tree: Tree)

  function HeadOf(x: Shape): Head
    requires !x.Reference?
  {
    if x.Array? then ArrayHead else ObjectHead(x.className, x.kind)
  }

  ghost function Left(w: World, guarded: set<Node>): nat {
    |w.shapes.Keys - guarded|
  }

  lemma LeftFewer(w: World, guarded: set<Node>, n: Node)
    requires n in w.shapes && n !in guarded
    ensures Left(w, guarded + {n}) < Left(w, guarded)
  {
    var before, after := w.shapes.Keys - guarded, w.shapes.Keys - (guarded + {n});
    assert before == after + {n} && n !in after;
  }

  predicate Below(w: World, entries: seq<Entry>, level: nat) {
    forall i :: 0 <= i < |entries| ==> Known(w, entries[i].value) && Level(w, entries[i].value) < level
  }

  /** Every container is opened unless its guard is set; while it is open the guard is. */
  ghost function Unfold(w: World, v: Value, guarded: set<Node>): Tree
    requires Sound(w) && Known(w, v)
    decreases Left(w, guarded), Level(w, v), 0
  {
    if v.Scalar? then Plain(v.text)
    else
      var n := v.node; var x := w.shapes[n];
      assert NodeOk(w, n);
      if x.Reference? then Unfold(w, x.value, guarded)
      else if Unguarded(x) then Opened(HeadOf(x), UnfoldAll(w, EntriesOf(x, w.flat), guarded, Level(w, v)))
      else if n in guarded then Marked(HeadOf(x))
      else
        LeftFewer(w, guarded, n);
        Opened(HeadOf(x), UnfoldAll(w, EntriesOf(x, w.flat), guarded + {n}, w.cap))
  }

  ghost function UnfoldAll(w: World, entries: seq<Entry>, guarded: set<Node>, level: nat): (r: seq<Line>)
    requires Sound(w) && Below(w, entries, level)
    ensures |r| == |entries|
    decreases Left(w, guarded), level, 0, |entries|
  {
    if entries == [] then []
    else [Line(entries[0].key, Unfold(w, entries[0].value, guarded))] + UnfoldAll(w, entries[1..], guarded, level)
  }

  lemma {:induction false} UnfoldAllAt(w: World, entries: seq<Entry>, guarded: set<Node>, level: nat, i: nat)
    requires Sound(w) && Below(w, entries, level) && i < |entries|
    ensures UnfoldAll(w, entries, guarded, level)[i] == Line(entries[i].key, Unfold(w, entries[i].value, guarded))
    decreases |entries|
  {
    if i > 0 {
      UnfoldAllAt(w, entries[1..], guarded, level, i - 1);
    }
  }

  /** The tree of an array or object, case by case. */
  lemma UnfoldNode(w: World, n: Node, guarded: set<Node>)
    requires Sound(w) && Known(w, At(n)) && !w.shapes[n].Reference?
    ensures var x := w.shapes[n]; var entries := EntriesOf(x, w.flat);
            if Unguarded(x) then
              && Below(w, entries, Level(w, At(n)))
              && Unfold(w, At(n), guarded) == Opened(HeadOf(x), UnfoldAll(w, entries, guarded, Level(w, At(n))))
            else if n in guarded then Unfold(w, At(n), guarded) == Marked(HeadOf(x))
            else
              && Below(w, entries, w.cap) && Left(w, guarded + {n}) < Left(w, guarded)
              && Unfold(w, At(n), guarded) == Opened(HeadOf(x), UnfoldAll(w, entries, guarded + {n}, w.cap))
  {
    assert NodeOk(w, n);
    if n !in guarded {
      LeftFewer(w, guarded, n);
    }
  }
}
