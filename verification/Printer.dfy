// print_r, nested: it writes what the tree of the value says and leaves every recursion guard as it was.
module Printer {
  import opened PrintGraph
  import opened Numerals

  const INDENT := 4

  // ---------- the text of a tree ----------

  function Spaces(n: nat): (r: string)
    ensures |r| == n && forall i :: 0 <= i < n ==> r[i] == ' '
  {
    seq(n, i => ' ')
  }

  function KindText(kind: EnumKind): string {
    match kind
    case NotEnum => " Object\n"
    case Enum(backing) => " Enum" + (if backing == "" then "" else ":" + backing) + "\n"
  }

  function HeadText(h: Head): string {
    if h.ArrayHead? then "Array\n" else h.className + KindText(h.kind)
  }

  function AccessText(a: Access): string {
    match a
    case Public => ""
    case Protected => ":protected"
    case Private(className) => ":" + className + ":private"
  }

  function KeyText(k: Key, isObject: bool): string {
    if k.Num? then Signed(k.n) else if isObject then k.property + AccessText(k.access) else k.raw
  }

  const MARK := " *RECURSION*"

  function NestedText(t: Tree, indent: nat): string
    decreases t, 2
  {
    match t
    case Plain(text) => text
    case Marked(head) => HeadText(head) + MARK
    case Opened(head, lines) => HeadText(head) + BlockText(lines, indent, head.ObjectHead?)
  }

  function BlockText(lines: seq<Line>, indent: nat, isObject: bool): string
    decreases lines, 2
  {
    Spaces(indent) + "(\n" + LinesText(lines, indent + INDENT, isObject) + (Spaces(indent) + ")\n")
  }

  function LinesText(lines: seq<Line>, indent: nat, isObject: bool): string
    decreases lines, 1
  {
    if lines == [] then "" else LineText(lines[0], indent, isObject) + LinesText(lines[1..], indent, isObject)
  }

  function LineText(l: Line, indent: nat, isObject: bool): string
    decreases l, 0
  {
    Spaces(indent) + "[" + KeyText(l.key, isObject) + "] => " + NestedText(l.tree, indent + INDENT) + "\n"
  }

  function FlatHeadText(h: Head): string {
    if h.ArrayHead? then "Array (" else h.className + " Object ("
  }

  function FlatKeyText(k: Key): string {
    if k.Num? then Unsigned(k.n) else k.raw
  }

  function FlatText(t: Tree): string
    decreases t, 1
  {
    match t
    case Plain(text) => text
    case Marked(head) => FlatHeadText(head) + MARK
    case Opened(head, lines) => FlatHeadText(head) + FlatLinesText(lines, true) + ")"
  }

  function FlatLinesText(lines: seq<Line>, first: bool): string
    decreases lines, 1
  {
    if lines == [] then ""
    else FlatLineText(lines[0], first) + FlatLinesText(lines[1..], false)
  }

  function FlatLineText(l: Line, first: bool): string
    decreases l, 0
  {
    (if first then "" else ",") + "[" + FlatKeyText(l.key) + "] => " + FlatText(l.tree)
  }

  lemma Joined(a: string, b: string, c: string)
    ensures a + b + c == a + (b + c)
  {
  }

  lemma LinesSplit(lines: seq<Line>, i: nat, indent: nat, isObject: bool)
    requires i < |lines|
    ensures LinesText(lines[i..], indent, isObject)
         == LineText(lines[i], indent, isObject) + LinesText(lines[i + 1..], indent, isObject)
  {
    assert lines[i..][1..] == lines[i + 1..];
  }

  lemma FlatLinesSplit(lines: seq<Line>, i: nat)
    requires i < |lines|
    ensures FlatLinesText(lines[i..], i == 0) == FlatLineText(lines[i], i == 0) + FlatLinesText(lines[i + 1..], false)
  {
    assert lines[i..][1..] == lines[i + 1..];
  }

  // ---------- guards ----------

  /** The flag that tells a container is being printed. */
  predicate Guarded(n: Node, flat: bool)
    reads n
  {
    if !flat && n.shape.Object? && n.shape.usesGuards then n.guard else n.protected
  }

  type Flags = map<Node, (bool, bool)>

  /** The nodes are as the world says, their flags as `flags` says, and the guards are set for `guarded`. */
  ghost predicate ReadyNow(w: World, flags: Flags, guarded: set<Node>)
    reads w.shapes.Keys
  {
    forall n :: n in w.shapes ==>
      && n.shape == w.shapes[n] && n in flags && flags[n] == (n.protected, n.guard)
      && (Guarded(n, w.flat) <==> n in guarded)
  }

  ghost predicate ReadyBehind(w: World, flags: Flags, guarded: set<Node>, k: nat)
    reads w.shapes.Keys
    decreases k
  {
    if k == 0 then ReadyNow(w, flags, guarded) else ReadyBehind(w, flags, guarded, k - 1)
  }

  /** ReadyNow, kept closed in the printers. */
  ghost predicate Ready(w: World, flags: Flags, guarded: set<Node>)
    reads w.shapes.Keys
  {
    ReadyBehind(w, flags, guarded, w.cap + 3)
  }

  lemma {:induction false} ReadyBehindIs(w: World, flags: Flags, guarded: set<Node>, k: nat)
    ensures ReadyBehind(w, flags, guarded, k) <==> ReadyNow(w, flags, guarded)
    decreases k
  {
    if k > 0 {
      ReadyBehindIs(w, flags, guarded, k - 1);
    }
  }

  lemma ReadyIs(w: World, flags: Flags, guarded: set<Node>)
    ensures Ready(w, flags, guarded) <==> ReadyNow(w, flags, guarded)
  {
    ReadyBehindIs(w, flags, guarded, w.cap + 3);
  }

  lemma ReadyAt(w: World, flags: Flags, guarded: set<Node>, n: Node)
    requires Ready(w, flags, guarded) && n in w.shapes
    ensures n.shape == w.shapes[n] && n in flags && (Guarded(n, w.flat) <==> n in guarded)
  {
    ReadyIs(w, flags, guarded);
  }

  /** The flags with the guard of n set. */
  ghost function Raised(w: World, flags: Flags, n: Node): Flags
    requires n in w.shapes && n in flags
  {
    var x := w.shapes[n];
    flags[n := if !w.flat && x.Object? && x.usesGuards then (flags[n].0, true) else (true, flags[n].1)]
  }

  ghost predicate Clear(w: World, flags: Flags, n: Node) {
    && n in w.shapes && n in flags
    && if !w.flat && w.shapes[n].Object? && w.shapes[n].usesGuards then !flags[n].1 else !flags[n].0
  }

  method Protect(n: Node, flat: bool, ghost w: World, ghost flags: Flags, ghost guarded: set<Node>)
    requires Ready(w, flags, guarded) && n in w.shapes && n !in guarded && flat == w.flat
    modifies n
    ensures Clear(w, flags, n) && Ready(w, Raised(w, flags, n), guarded + {n})
  {
    ReadyIs(w, flags, guarded);
    if !flat && n.shape.Object? && n.shape.usesGuards {
      n.guard := true;
    } else {
      n.protected := true;
    }
    ReadyIs(w, Raised(w, flags, n), guarded + {n});
  }

  /** Undoes Protect. */
  method Unprotect(n: Node, flat: bool, ghost w: World, ghost flags: Flags, ghost guarded: set<Node>)
    requires n !in guarded && flat == w.flat && Clear(w, flags, n)
    requires Ready(w, Raised(w, flags, n), guarded + {n})
    modifies n
    ensures Ready(w, flags, guarded)
  {
    ReadyIs(w, Raised(w, flags, n), guarded + {n});
    if !flat && n.shape.Object? && n.shape.usesGuards {
      n.guard := false;
    } else {
      n.protected := false;
    }
    ReadyIs(w, flags, guarded);
  }

  // ---------- nested ----------

  class Buffer {
    var text: string

    method Append(s: string)
      modifies this
      ensures text == old(text) + s
    {
      text := text + s;
    }

    method AppendSpaces(n: nat)
      modifies this
      ensures text == old(text) + Spaces(n)
    {
      var i := 0;
      while i < n
        invariant 0 <= i <= n && text == old(text) + Spaces(i)
      {
        text := text + " ";
        assert Spaces(i) + " " == Spaces(i + 1);
        i := i + 1;
      }
    }
  }

  /** Writing a, b, c, .. one by one writes what they make together. */
  lemma Pieces(was: string, a: string, b: string, c: string, d: string)
    ensures was + a + b + c + d == was + (a + b + c + d)
  {
  }

  method PrintNested(buf: Buffer, v: Value, indent: nat, ghost w: World, ghost flags: Flags, ghost guarded: set<Node>)
    requires Sound(w) && !w.flat && Known(w, v) && Ready(w, flags, guarded)
    modifies buf, w.shapes.Keys
    ensures Ready(w, flags, guarded)
    ensures buf.text == old(buf.text) + NestedText(Unfold(w, v, guarded), indent)
    decreases Left(w, guarded), Level(w, v), 4
  {
    match v
    case Scalar(text) => buf.Append(text);
    case At(n) =>
      assert NodeOk(w, n);
      ReadyAt(w, flags, guarded, n);
      match n.shape
      case Reference(inner) => PrintNested(buf, inner, indent, w, flags, guarded);
      case Array(_, _) => PrintArray(buf, n, indent, w, flags, guarded);
      case Object(_, _, _, _, _) => PrintObject(buf, n, indent, w, flags, guarded);
  }

  method PrintArray(buf: Buffer, n: Node, indent: nat, ghost w: World, ghost flags: Flags, ghost guarded: set<Node>)
    requires Sound(w) && !w.flat && Known(w, At(n)) && Ready(w, flags, guarded) && w.shapes[n].Array?
    modifies buf, w.shapes.Keys
    ensures Ready(w, flags, guarded)
    ensures buf.text == old(buf.text) + NestedText(Unfold(w, At(n), guarded), indent)
    decreases Left(w, guarded), Level(w, At(n)), 3
  {
    ghost var was := buf.text;
    UnfoldNode(w, n, guarded);
    ReadyAt(w, flags, guarded, n);
    buf.Append("Array\n");
    if n.shape.immutable {
      PrintHash(buf, n.shape.entries, indent, false, w, Level(w, At(n)), flags, guarded);
    } else if n.protected {
      buf.Append(MARK);
    } else {
      PrintGuarded(buf, n, n.shape.entries, indent, false, w, flags, guarded);
    }
    TreeText(was, Unfold(w, At(n), guarded), indent);
  }

  /** What follows the head of a container. */
  function BodyText(t: Tree, indent: nat): string {
    match t
    case Plain(text) => ""
    case Marked(_) => MARK
    case Opened(head, lines) => BlockText(lines, indent, head.ObjectHead?)
  }

  lemma TreeText(was: string, t: Tree, indent: nat)
    requires !t.Plain?
    ensures was + NestedText(t, indent) == was + HeadText(t.head) + BodyText(t, indent)
  {
    Joined(was, HeadText(t.head), BodyText(t, indent));
  }

  /** The block of a container that is not yet being printed, with its guard set meanwhile. */
  method PrintGuarded(buf: Buffer, n: Node, entries: seq<Entry>, indent: nat, isObject: bool,
                      ghost w: World, ghost flags: Flags, ghost guarded: set<Node>)
    requires Sound(w) && !w.flat && Known(w, At(n)) && Ready(w, flags, guarded)
    requires n !in guarded && !Unguarded(w.shapes[n]) && isObject == w.shapes[n].Object?
    requires entries == EntriesOf(w.shapes[n], false)
    modifies buf, w.shapes.Keys
    ensures Ready(w, flags, guarded)
    ensures buf.text == old(buf.text) + BodyText(Unfold(w, At(n), guarded), indent)
    decreases Left(w, guarded), Level(w, At(n)), 2
  {
    UnfoldNode(w, n, guarded);
    Protect(n, false, w, flags, guarded);
    PrintHash(buf, entries, indent, isObject, w, w.cap, Raised(w, flags, n), guarded + {n});
    Unprotect(n, false, w, flags, guarded);
  }

  method PrintHead(buf: Buffer, className: string, kind: EnumKind)
    modifies buf
    ensures buf.text == old(buf.text) + HeadText(ObjectHead(className, kind))
  {
    ghost var was := buf.text;
    buf.Append(className);
    match kind {
      case NotEnum =>
        buf.Append(" Object\n");
        Pieces(was, className, " Object\n", "", "");
      case Enum(backing) =>
        buf.Append(" Enum");
        if backing != "" {
          buf.Append(":");
          buf.Append(backing);
        }
        buf.Append("\n");
        EnumPieces(was, className, backing);
    }
  }

  lemma EnumPieces(was: string, className: string, backing: string)
    ensures var middle := if backing == "" then "" else ":" + backing;
            && was + className + (" Enum" + middle + "\n") == was + (className + (" Enum" + middle + "\n"))
            && was + className + " Enum" + middle + "\n" == was + className + (" Enum" + middle + "\n")
            && was + className + " Enum" + ":" + backing == was + className + " Enum" + (":" + backing)
  {
    var middle := if backing == "" then "" else ":" + backing;
    Joined(was, className, " Enum" + middle + "\n");
    Pieces(was + className, " Enum", middle, "\n", "");
    Joined(was + className + " Enum", ":", backing);
  }

  method PrintObject(buf: Buffer, n: Node, indent: nat, ghost w: World, ghost flags: Flags, ghost guarded: set<Node>)
    requires Sound(w) && !w.flat && Known(w, At(n)) && Ready(w, flags, guarded) && w.shapes[n].Object?
    modifies buf, w.shapes.Keys
    ensures Ready(w, flags, guarded)
    ensures buf.text == old(buf.text) + NestedText(Unfold(w, At(n), guarded), indent)
    decreases Left(w, guarded), Level(w, At(n)), 3
  {
    ghost var was := buf.text;
    UnfoldNode(w, n, guarded);
    ReadyAt(w, flags, guarded, n);
    PrintHead(buf, n.shape.className, n.shape.kind);
    if Guarded(n, false) {
      buf.Append(MARK);
    } else if n.shape.debug.None? {
      PrintHash(buf, [], indent, true, w, 0, flags, guarded);
    } else {
      PrintGuarded(buf, n, n.shape.debug.value, indent, true, w, flags, guarded);
    }
    TreeText(was, Unfold(w, At(n), guarded), indent);
  }

  /** print_hash */
  method PrintHash(buf: Buffer, entries: seq<Entry>, indent: nat, isObject: bool,
                   ghost w: World, ghost level: nat, ghost flags: Flags, ghost guarded: set<Node>)
    requires Sound(w) && !w.flat && Below(w, entries, level) && Ready(w, flags, guarded)
    modifies buf, w.shapes.Keys
    ensures Ready(w, flags, guarded)
    ensures buf.text == old(buf.text) + BlockText(UnfoldAll(w, entries, guarded, level), indent, isObject)
    decreases Left(w, guarded), level, 1
  {
    ghost var was, lines := buf.text, UnfoldAll(w, entries, guarded, level);
    buf.AppendSpaces(indent);
    buf.Append("(\n");
    PrintLines(buf, entries, indent + INDENT, isObject, w, level, flags, guarded);
    buf.AppendSpaces(indent);
    buf.Append(")\n");
    BlockPieces(was, Spaces(indent), LinesText(lines, indent + INDENT, isObject));
  }

  lemma BlockPieces(was: string, spaces: string, lines: string)
    ensures was + spaces + "(\n" + lines + spaces + ")\n" == was + (spaces + "(\n" + lines + (spaces + ")\n"))
  {
    Pieces(was, spaces, "(\n", lines, spaces + ")\n");
    Joined(was + spaces + "(\n" + lines, spaces, ")\n");
  }

  method PrintLines(buf: Buffer, entries: seq<Entry>, indent: nat, isObject: bool,
                    ghost w: World, ghost level: nat, ghost flags: Flags, ghost guarded: set<Node>)
    requires Sound(w) && !w.flat && Below(w, entries, level) && Ready(w, flags, guarded)
    modifies buf, w.shapes.Keys
    ensures Ready(w, flags, guarded)
    ensures buf.text == old(buf.text) + LinesText(UnfoldAll(w, entries, guarded, level), indent, isObject)
    decreases Left(w, guarded), level, 0
  {
    ghost var lines := UnfoldAll(w, entries, guarded, level);
    ghost var target := buf.text + LinesText(lines, indent, isObject);
    assert lines[0..] == lines;
    for i := 0 to |entries|
      invariant Ready(w, flags, guarded)
      invariant buf.text + LinesText(lines[i..], indent, isObject) == target
    {
      ghost var was := buf.text;
      UnfoldAllAt(w, entries, guarded, level, i);
      PrintLine(buf, entries[i], indent, isObject, w, flags, guarded);
      LinesSplit(lines, i, indent, isObject);
      Joined(was, LineText(lines[i], indent, isObject), LinesText(lines[i + 1..], indent, isObject));
    }
  }

  method PrintKey(buf: Buffer, key: Key, isObject: bool)
    modifies buf
    ensures buf.text == old(buf.text) + KeyText(key, isObject)
  {
    ghost var was := buf.text;
    match key
    case Num(n) => buf.Append(Signed(n));
    case Name(raw, property, access) =>
      if isObject {
        buf.Append(property);
        match access
        case Public =>
        case Protected => buf.Append(":protected");
        case Private(className) =>
          buf.Append(":");
          buf.Append(className);
          buf.Append(":private");
          Pieces(was, property, ":", className, ":private");
          Pieces("", property, ":", className, ":private");
      } else {
        buf.Append(raw);
      }
  }

  method PrintLine(buf: Buffer, e: Entry, indent: nat, isObject: bool,
                   ghost w: World, ghost flags: Flags, ghost guarded: set<Node>)
    requires Sound(w) && !w.flat && Known(w, e.value) && Ready(w, flags, guarded)
    modifies buf, w.shapes.Keys
    ensures Ready(w, flags, guarded)
    ensures buf.text == old(buf.text) + LineText(Line(e.key, Unfold(w, e.value, guarded)), indent, isObject)
    decreases Left(w, guarded), Level(w, e.value), 5
  {
    ghost var was := buf.text;
    buf.AppendSpaces(indent);
    buf.Append("[");
    PrintKey(buf, e.key, isObject);
    buf.Append("] => ");
    PrintNested(buf, e.value, indent + INDENT, w, flags, guarded);
    buf.Append("\n");
    LinePieces(was, Spaces(indent), KeyText(e.key, isObject), NestedText(Unfold(w, e.value, guarded), indent + INDENT));
  }

  lemma LinePieces(was: string, spaces: string, key: string, value: string)
    ensures was + spaces + "[" + key + "] => " + value + "\n" == was + (spaces + "[" + key + "] => " + value + "\n")
  {
    Pieces(was, spaces, "[", key, "] => ");
    Joined(was, spaces + "[" + key + "] => ", value);
    Joined(was, spaces + "[" + key + "] => " + value, "\n");
  }
}
