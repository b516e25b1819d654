/** The mark *RECURSION* appears exactly when the printed value leads to a container that leads back to itself. */
module PrintCycles {
  import opened PrintGraph

  ghost predicate Marks(t: Tree) {
    match t
    case Plain(_) => false
    case Marked(_) => true
    case Opened(_, lines) => exists i :: 0 <= i < |lines| && Marks(lines[i].tree)
  }

  /** v holds a value number i. */
  predicate Holds(w: World, v: Value, i: nat) {
    v.At? && v.node in w.shapes &&
    if w.shapes[v.node].Reference? then i == 0 else i < |EntriesOf(w.shapes[v.node], w.flat)|
  }

  function Held(w: World, v: Value, i: nat): Value
    requires Holds(w, v, i)
  {
    var x := w.shapes[v.node];
    if x.Reference? then x.value else EntriesOf(x, w.flat)[i].value
  }

  /** From v, the value with the first number, from that the one with the second, and so on, is u. */
  predicate Leads(w: World, v: Value, path: seq<nat>, u: Value)
    decreases |path|
  {
    if path == [] then v == u else Holds(w, v, path[0]) && Leads(w, Held(w, v, path[0]), path[1..], u)
  }

  predicate Guardable(w: World, n: Node) {
    n in w.shapes && !Unguarded(w.shapes[n])
  }

  /** v leads to n, and n back to itself. */
  predicate Loop(w: World, v: Value, n: Node, p: seq<nat>, q: seq<nat>) {
    Guardable(w, n) && Leads(w, v, p, At(n)) && Leads(w, At(n), q, At(n)) && q != []
  }

  ghost predicate Cyclic(w: World, v: Value) {
    exists n, p, q :: n in w.shapes && Loop(w, v, n, p, q)
  }

  /** The guards that are set while the values held by v are printed. */
  ghost function Inside(w: World, v: Value, guarded: set<Node>): set<Node> {
    if v.At? && Guardable(w, v.node) then guarded + {v.node} else guarded
  }

  lemma HeldKnown(w: World, v: Value, i: nat)
    requires Sound(w) && Known(w, v) && Holds(w, v, i)
    ensures Known(w, Held(w, v, i))
    ensures Unguarded(w.shapes[v.node]) ==> Level(w, Held(w, v, i)) < Level(w, v)
  {
    assert NodeOk(w, v.node);
  }

  ghost predicate Opens(w: World, v: Value, guarded: set<Node>)
    requires Known(w, v)
  {
    v.At? && (Unguarded(w.shapes[v.node]) || v.node !in guarded)
  }

  /** What the tree of v says of the trees of the values it holds. */
  lemma HeldTree(w: World, v: Value, guarded: set<Node>, i: nat)
    requires Sound(w) && Known(w, v) && Holds(w, v, i) && Opens(w, v, guarded)
    ensures Known(w, Held(w, v, i))
    ensures var t, u := Unfold(w, v, guarded), Unfold(w, Held(w, v, i), Inside(w, v, guarded));
            if w.shapes[v.node].Reference? then t == u
            else t.Opened? && |t.lines| == |EntriesOf(w.shapes[v.node], w.flat)| && t.lines[i].tree == u
  {
    var n, x := v.node, w.shapes[v.node];
    assert NodeOk(w, n);
    if !x.Reference? {
      var entries, level := EntriesOf(x, w.flat), if Unguarded(x) then Level(w, v) else w.cap;
      assert Below(w, entries, level);
      UnfoldAllAt(w, entries, Inside(w, v, guarded), level, i);
    }
  }

  /** Without a mark every path is followed to its end, and the guards on the way stay set. */
  lemma {:induction false} Followed(w: World, v: Value, path: seq<nat>, u: Value, guarded: set<Node>)
    returns (g: set<Node>)
    requires Sound(w) && Known(w, v) && Leads(w, v, path, u) && !Marks(Unfold(w, v, guarded))
    ensures guarded <= g && (path != [] ==> Inside(w, v, guarded) <= g)
    ensures Known(w, u) && !Marks(Unfold(w, u, g))
    decreases |path|
  {
    if path == [] {
      g := guarded;
    } else {
      var i := path[0];
      assert Opens(w, v, guarded);
      HeldTree(w, v, guarded, i);
      assert !Marks(Unfold(w, Held(w, v, i), Inside(w, v, guarded)));
      g := Followed(w, Held(w, v, i), path[1..], u, Inside(w, v, guarded));
    }
  }

  lemma MarkedHeld(w: World, v: Value, guarded: set<Node>) returns (i: nat)
    requires Sound(w) && Known(w, v) && Opens(w, v, guarded) && Marks(Unfold(w, v, guarded))
    ensures Holds(w, v, i) && Known(w, Held(w, v, i)) && Marks(Unfold(w, Held(w, v, i), Inside(w, v, guarded)))
  {
    var x, t := w.shapes[v.node], Unfold(w, v, guarded);
    if x.Reference? {
      i := 0;
      HeldTree(w, v, guarded, 0);
    } else {
      assert NodeOk(w, v.node);
      assert t.Opened? && |t.lines| == |EntriesOf(x, w.flat)|;
      i :| 0 <= i < |t.lines| && Marks(t.lines[i].tree);
      HeldTree(w, v, guarded, i);
    }
  }

  /** The way to a mark: to a container whose guard was set from the start, or to one that leads back to itself. */
  lemma {:induction false} ToMark(w: World, v: Value, guarded: set<Node>)
    returns (n: Node, p: seq<nat>, q: seq<nat>)
    requires Sound(w) && Known(w, v) && Marks(Unfold(w, v, guarded))
    ensures Guardable(w, n) && Leads(w, v, p, At(n))
    ensures n in guarded || Loop(w, v, n, p, q)
    decreases Left(w, guarded), Level(w, v)
  {
    var m := v.node;
    if !Opens(w, v, guarded) {
      n, p, q := m, [], [];
    } else {
      var i := MarkedHeld(w, v, guarded);
      var c := Held(w, v, i);
      HeldKnown(w, v, i);
      if Guardable(w, m) {
        LeftFewer(w, guarded, m);
      }
      n, p, q := ToMark(w, c, Inside(w, v, guarded));
      assert ([i] + p)[1..] == p;
      p := [i] + p;
      if n !in guarded && n == m {
        p, q := [], p;
      }
    }
  }

  lemma LoopMarks(w: World, v: Value, n: Node, p: seq<nat>, q: seq<nat>)
    requires Sound(w) && Known(w, v) && Loop(w, v, n, p, q)
    ensures Marks(Unfold(w, v, {}))
  {
    if !Marks(Unfold(w, v, {})) {
      var g := Followed(w, v, p, At(n), {});
      var h := Followed(w, At(n), q, At(n), g);
    }
  }

  /** With no guard set at first. */
  lemma MarksIff(w: World, v: Value)
    requires Sound(w) && Known(w, v)
    ensures Marks(Unfold(w, v, {})) <==> Cyclic(w, v)
  {
    if Marks(Unfold(w, v, {})) {
      var n, p, q := ToMark(w, v, {});
      assert Loop(w, v, n, p, q);
    }
    if Cyclic(w, v) {
      var n, p, q :| n in w.shapes && Loop(w, v, n, p, q);
      LoopMarks(w, v, n, p, q);
    }
  }
}
