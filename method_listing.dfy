/**
 * The listing the registry prints for `test` once it is translated: which
 * names rendering generates, and the text of every line.
 */
module MethodListing {
  import opened Tac
  import opened TacRegistry
  import opened MethodScenario

  /** Names bound by the source (`i`, `b`) and those rendering generates (`_t0`, `_t1`). */
  const BoundNames := Names(map[1 := "i", 4 := "b"], 0)
  const OneTemp := Names(map[1 := "i", 4 := "b", 2 := "_t0"], 1)
  const TwoTemps := Names(map[1 := "i", 4 := "b", 2 := "_t0", 3 := "_t1"], 2)

  /** `i = 3` prints under its own name; nothing is generated. */
  lemma TestCopyLine()
    ensures RenderStmt(TestRegistry.records[1], 1, BoundNames, TestRegistry.labelNames) == ("i\t:= 3", BoundNames)
  {
    assert NameDest(BoundNames, 1) == ("i", BoundNames);
    assert "i" + "\t:= " + "3" + "" == "i\t:= 3";
  }

  /** `i * 7` has no variable, so it is the first to be given a temporary name, `_t0`. */
  lemma TestProductLine()
    ensures RenderStmt(TestRegistry.records[2], 2, BoundNames, TestRegistry.labelNames) == ("_t0\t:= i\t*\t7", OneTemp)
  {
    assert TempName(0) == "_t0" by { assert NatToString(0) == "0"; }
    assert NameDest(BoundNames, 2) == ("_t0", OneTemp);
    assert "_t0" + "\t:= " + "i" + ("\t" + "*" + "\t" + "7") == "_t0\t:= i\t*\t7";
  }

  /** `3 - _t0` is named `_t1` and refers to the product by the name just generated. */
  lemma TestDifferenceLine()
    ensures RenderStmt(TestRegistry.records[3], 3, OneTemp, TestRegistry.labelNames) == ("_t1\t:= 3\t-\t_t0", TwoTemps)
  {
    assert TempName(1) == "_t1" by { assert NatToString(1) == "1"; }
    assert NameDest(OneTemp, 3) == ("_t1", TwoTemps);
    assert ValueString(Reference(2), TwoTemps.varNames) == "_t0";
    assert "_t1" + "\t:= " + "3" + ("\t" + "-" + "\t" + "_t0") == "_t1\t:= 3\t-\t_t0";
  }

  /** `_t1 / 5` is bound to `b` and prints under that name. */
  lemma TestQuotientLine()
    ensures RenderStmt(TestRegistry.records[4], 4, TwoTemps, TestRegistry.labelNames) == ("b\t:= _t1\t/\t5", TwoTemps)
  {
    assert NameDest(TwoTemps, 4) == ("b", TwoTemps);
    assert ValueString(Reference(3), TwoTemps.varNames) == "_t1";
    assert "b" + "\t:= " + "_t1" + ("\t" + "/" + "\t" + "5") == "b\t:= _t1\t/\t5";
  }

  /** One more record in the listing, at a position that carries no label. */
  lemma ExtendListing(s: RegState, n: nat, text: string, nm: Names, line: string, nm': Names)
    requires n < |s.records| && n !in s.labels
    requires RenderPrefix(s, n) == (text, nm)
    requires RenderStmt(s.records[n], n, nm, s.labelNames) == (line, nm')
    ensures RenderPrefix(s, n + 1) == (text + "\t" + line + "\n", nm')
  {
    assert LabelLine(s.labels, s.labelNames, n) == "";
    assert text + "\t" + line + "\n" + "" == text + "\t" + line + "\n";
  }

  /** A header followed by one tab-indented line per entry of `lines`. */
  function Listing(header: string, lines: seq<string>): string
  {
    if lines == [] then header
    else Listing(header, lines[..|lines| - 1]) + "\t" + lines[|lines| - 1] + "\n"
  }

  /** The lines of `test`'s records, in order. */
  const TestLines: seq<string> :=
    ["BeginFunc", "i\t:= 3", "_t0\t:= i\t*\t7", "_t1\t:= 3\t-\t_t0", "b\t:= _t1\t/\t5", "EndFunc"]

  /** One more line of `test` in the listing. */
  lemma ExtendTestListing(k: nat, nm: Names, nm': Names)
    requires k < 6
    requires RenderPrefix(TestRegistry, k) == (Listing("_method_test:\n", TestLines[..k]), nm)
    requires RenderStmt(TestRegistry.records[k], k, nm, TestRegistry.labelNames) == (TestLines[k], nm')
    ensures RenderPrefix(TestRegistry, k + 1) == (Listing("_method_test:\n", TestLines[..k + 1]), nm')
  {
    assert TestLines[..k + 1][..k] == TestLines[..k];
    ExtendListing(TestRegistry, k, Listing("_method_test:\n", TestLines[..k]), nm, TestLines[k], nm');
  }

  /**
   * The listing of `test`: the method label first, one tab-indented line per
   * record, the two unbound results named `_t0` and `_t1` in index order and
   * the bound ones by their variables.
   */
  lemma TestMethodListing()
    ensures Render(TestRegistry).0 == Listing("_method_test:\n", TestLines)
    ensures Render(TestRegistry).1 == TwoTemps
  {
    var r := TestRegistry;
    assert RenderPrefix(r, 0) == ("_method_test:\n", BoundNames) by {
      assert LabelLine(r.labels, r.labelNames, -1) == "_method_test:\n";
    }
    assert TestLines[..0] == [];
    ExtendTestListing(0, BoundNames, BoundNames);
    TestCopyLine();
    ExtendTestListing(1, BoundNames, BoundNames);
    TestProductLine();
    ExtendTestListing(2, BoundNames, OneTemp);
    TestDifferenceLine();
    ExtendTestListing(3, OneTemp, TwoTemps);
    TestQuotientLine();
    ExtendTestListing(4, TwoTemps, TwoTemps);
    ExtendTestListing(5, TwoTemps, TwoTemps);
    assert TestLines[..6] == TestLines;
  }
}
