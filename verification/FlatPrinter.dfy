/** zend_print_flat_zval_r: the flat printer, on one line. */
module FlatPrinter {
  import opened PrintGraph
  import opened Numerals
  import opened Printer

  method PrintFlat(buf: Buffer, v: Value, ghost w: World, ghost flags: Flags, ghost guarded: set<Node>)
    requires Sound(w) && w.flat && Known(w, v) && Ready(w, flags, guarded)
    modifies buf, w.shapes.Keys
    ensures Ready(w, flags, guarded)
    ensures buf.text == old(buf.text) + FlatText(Unfold(w, v, guarded))
    decreases Left(w, guarded), Level(w, v), 4
  {
    match v
    case Scalar(text) => buf.Append(text);
    case At(n) =>
      assert NodeOk(w, n);
      ReadyAt(w, flags, guarded, n);
      match n.shape
      case Reference(inner) => PrintFlat(buf, inner, w, flags, guarded);
      case Array(_, _) => PrintFlatArray(buf, n, w, flags, guarded);
      case Object(_, _, _, _, _) => PrintFlatObject(buf, n, w, flags, guarded);
  }

  method PrintFlatArray(buf: Buffer, n: Node, ghost w: World, ghost flags: Flags, ghost guarded: set<Node>)
    requires Sound(w) && w.flat && Known(w, At(n)) && Ready(w, flags, guarded) && w.shapes[n].Array?
    modifies buf, w.shapes.Keys
    ensures Ready(w, flags, guarded)
    ensures buf.text == old(buf.text) + FlatText(Unfold(w, At(n), guarded))
    decreases Left(w, guarded), Level(w, At(n)), 3
  {
    ghost var was := buf.text;
    UnfoldNode(w, n, guarded);
    ReadyAt(w, flags, guarded, n);
    FlatTreeText(was, Unfold(w, At(n), guarded));
    buf.Append("Array (");
    if n.shape.immutable {
      PrintFlatHash(buf, n.shape.entries, w, Level(w, At(n)), flags, guarded);
    } else if n.protected {
      buf.Append(MARK);
      return;
    } else {
      PrintFlatGuarded(buf, n, n.shape.entries, w, flags, guarded);
    }
    buf.Append(")");
  }

  /** What stands between the head of a container and its closing parenthesis. */
  function FlatBodyText(t: Tree): string {
    match t
    case Plain(text) => ""
    case Marked(_) => MARK
    case Opened(head, lines) => FlatLinesText(lines, true)
  }

  lemma FlatTreeText(was: string, t: Tree)
    requires !t.Plain?
    ensures was + FlatText(t)
         == was + FlatHeadText(t.head) + FlatBodyText(t) + if t.Opened? then ")" else ""
  {
    Joined(was, FlatHeadText(t.head), FlatBodyText(t));
    Joined(was, FlatHeadText(t.head) + FlatBodyText(t), if t.Opened? then ")" else "");
  }

  /** The entries of a container that is not yet being printed, with its guard set meanwhile. */
  method PrintFlatGuarded(buf: Buffer, n: Node, entries: seq<Entry>,
                          ghost w: World, ghost flags: Flags, ghost guarded: set<Node>)
    requires Sound(w) && w.flat && Known(w, At(n)) && Ready(w, flags, guarded)
    requires n !in guarded && !Unguarded(w.shapes[n]) && entries == EntriesOf(w.shapes[n], true)
    modifies buf, w.shapes.Keys
    ensures Ready(w, flags, guarded)
    ensures buf.text == old(buf.text) + FlatBodyText(Unfold(w, At(n), guarded))
    decreases Left(w, guarded), Level(w, At(n)), 2
  {
    UnfoldNode(w, n, guarded);
    Protect(n, true, w, flags, guarded);
    PrintFlatHash(buf, entries, w, w.cap, Raised(w, flags, n), guarded + {n});
    Unprotect(n, true, w, flags, guarded);
  }

  method PrintFlatHead(buf: Buffer, className: string)
    modifies buf
    ensures buf.text == old(buf.text) + (className + " Object (")
  {
    ghost var was := buf.text;
    buf.Append(className);
    buf.Append(" Object (");
    Joined(was, className, " Object (");
  }

  method PrintFlatObject(buf: Buffer, n: Node, ghost w: World, ghost flags: Flags, ghost guarded: set<Node>)
    requires Sound(w) && w.flat && Known(w, At(n)) && Ready(w, flags, guarded) && w.shapes[n].Object?
    modifies buf, w.shapes.Keys
    ensures Ready(w, flags, guarded)
    ensures buf.text == old(buf.text) + FlatText(Unfold(w, At(n), guarded))
    decreases Left(w, guarded), Level(w, At(n)), 3
  {
    ghost var was := buf.text;
    UnfoldNode(w, n, guarded);
    ReadyAt(w, flags, guarded, n);
    FlatTreeText(was, Unfold(w, At(n), guarded));
    PrintFlatHead(buf, n.shape.className);
    if n.protected {
      buf.Append(MARK);
      return;
    }
    if n.shape.properties.Some? {
      PrintFlatGuarded(buf, n, n.shape.properties.value, w, flags, guarded);
    }
    buf.Append(")");
  }

  /** print_flat_hash */
  method PrintFlatHash(buf: Buffer, entries: seq<Entry>, ghost w: World, ghost level: nat,
                       ghost flags: Flags, ghost guarded: set<Node>)
    requires Sound(w) && w.flat && Below(w, entries, level) && Ready(w, flags, guarded)
    modifies buf, w.shapes.Keys
    ensures Ready(w, flags, guarded)
    ensures buf.text == old(buf.text) + FlatLinesText(UnfoldAll(w, entries, guarded, level), true)
    decreases Left(w, guarded), level, 1
  {
    ghost var lines := UnfoldAll(w, entries, guarded, level);
    ghost var target := buf.text + FlatLinesText(lines, true);
    assert lines[0..] == lines;
    for i := 0 to |entries|
      invariant Ready(w, flags, guarded)
      invariant buf.text + FlatLinesText(lines[i..], i == 0) == target
    {
      ghost var was := buf.text;
      UnfoldAllAt(w, entries, guarded, level, i);
      PrintFlatLine(buf, entries[i], i, w, flags, guarded);
      FlatLinesSplit(lines, i);
      Joined(was, FlatLineText(lines[i], i == 0), FlatLinesText(lines[i + 1..], false));
    }
  }

  method PrintFlatLine(buf: Buffer, e: Entry, i: nat, ghost w: World, ghost flags: Flags, ghost guarded: set<Node>)
    requires Sound(w) && w.flat && Known(w, e.value) && Ready(w, flags, guarded)
    modifies buf, w.shapes.Keys
    ensures Ready(w, flags, guarded)
    ensures buf.text == old(buf.text) + FlatLineText(Line(e.key, Unfold(w, e.value, guarded)), i == 0)
    decreases Left(w, guarded), Level(w, e.value), 5
  {
    ghost var was := buf.text;
    PrintFlatKey(buf, e.key, i);
    PrintFlat(buf, e.value, w, flags, guarded);
    Joined(was, FlatKeyPart(e.key, i == 0), FlatText(Unfold(w, e.value, guarded)));
  }

  function FlatKeyPart(k: Key, first: bool): string {
    (if first then "" else ",") + "[" + FlatKeyText(k) + "] => "
  }

  method PrintFlatKey(buf: Buffer, key: Key, i: nat)
    modifies buf
    ensures buf.text == old(buf.text) + FlatKeyPart(key, i == 0)
  {
    ghost var was := buf.text;
    if i > 0 {
      buf.Append(",");
    }
    buf.Append("[");
    match key {
      case Num(n) => buf.Append(Unsigned(n));
      case Name(raw, _, _) => buf.Append(raw);
    }
    buf.Append("] => ");
    Pieces(was, if i == 0 then "" else ",", "[", FlatKeyText(key), "] => ");
  }
}
