/** The formats of the printers, by example. */
module PrintSamples {
  import opened Numerals
  import opened PrintGraph
  import opened Printer

  /** A property is shown with its access. */
  lemma PropertySamples()
    ensures LineText(Line(Name("", "p", Protected), Plain("1")), 4, true) == "    " + "[" + "p:protected" + "] => " + "1" + "\n"
    ensures LineText(Line(Name("", "q", Private("C")), Plain("1")), 4, true) == "    " + "[" + "q:C:private" + "] => " + "1" + "\n"
  {
    assert Spaces(4) == "    ";
    assert KeyText(Name("", "p", Protected), true) == "p:protected";
    assert KeyText(Name("", "q", Private("C")), true) == "q:C:private";
  }

  /** An element of an array is shown with its number, indented by 4. */
  lemma ArraySample()
    ensures NestedText(Opened(ArrayHead, [Line(Num(-12), Plain("x"))]), 0)
         == "Array\n" + ("" + "(\n" + ("    " + "[" + "-12" + "] => " + "x" + "\n") + ("" + ")\n"))
  {
    var l := Line(Num(-12), Plain("x"));
    assert Spaces(0) == "" && Spaces(4) == "    ";
    assert Digits(12) == "12";
    assert Signed(-12) == "-12";
    assert [l][1..] == [];
    assert LinesText([l], 4, false) == LineText(l, 4, false);
  }

  /** A container within a container is indented by 8. */
  lemma NestedSample()
    ensures LineText(Line(Name("", "p", Public), Opened(ObjectHead("E", Enum("int")), [])), 4, true)
         == "    " + "[" + "p" + "] => " + ("E Enum:int\n" + ("        " + "(\n" + "" + ("        " + ")\n"))) + "\n"
  {
    var h := ObjectHead("E", Enum("int"));
    assert Spaces(4) == "    " && Spaces(8) == "        ";
    assert HeadText(h) == "E Enum:int\n";
    assert KeyText(Name("", "p", Public), true) == "p";
    assert BlockText([], 8, true) == "        " + "(\n" + "" + ("        " + ")\n");
    assert NestedText(Opened(h, []), 8) == "E Enum:int\n" + BlockText([], 8, true);
  }

  /** The flat printer shows an object with its elements, and a container it is printing already. */
  lemma FlatSample()
    ensures FlatText(Opened(ObjectHead("C", NotEnum), [Line(Num(12), Plain("x"))]))
         == "C Object (" + ("" + "[" + "12" + "] => " + "x") + ")"
    ensures FlatText(Opened(ArrayHead, [])) == "Array (" + "" + ")"
    ensures FlatText(Marked(ArrayHead)) == "Array (" + " *RECURSION*"
  {
    var l := Line(Num(12), Plain("x"));
    assert FlatHeadText(ObjectHead("C", NotEnum)) == "C Object (";
    assert Digits(12) == "12";
    assert Unsigned(12) == "12";
    assert [l][1..] == [];
    assert FlatLinesText([l], true) == FlatLineText(l, true);
  }
}
