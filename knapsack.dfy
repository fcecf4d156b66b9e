/**
 * The `knapsack` crate: an item line parser and a solver that is still a
 * stub.
 */
module Knapsack {
  import opened Results
  import opened RustStr

  /** An item of the catalogue; both fields are `i32`. */
  datatype Item = Item(value: int, weight: int)

  /**
   * `Item::from_line`: the line is split on single spaces, the first two
   * pieces are parsed as `i32` (a bad one panics with "Invalid input") and
   * become `value` and `weight`; a line with one piece panics on `ns[1]`.
   * Pieces after the second are never looked at.
   */
  function FromLine(l: string): (r: Result<Item>)
    ensures r.Ok? ==> InI32(r.value.value) && InI32(r.value.weight)
    ensures r.Ok? <==>
      |Split(l, ' ')| >= 2 && ParseI32(Split(l, ' ')[0]).Some? && ParseI32(Split(l, ' ')[1]).Some?
    ensures r.Ok? ==>
      Some(r.value.value) == ParseI32(Split(l, ' ')[0]) && Some(r.value.weight) == ParseI32(Split(l, ' ')[1])
    ensures r == Err(IndexOutOfBounds) <==> |Split(l, ' ')| == 1 && ParseI32(l).Some?
    ensures r.Err? ==> r.panic == InvalidInput || r.panic == IndexOutOfBounds
  {
    var pieces := Split(l, ' ');
    var first := ParseI32(pieces[0]);
    JoinSplit(l, ' ');
    if first.None? then Err(InvalidInput)
    else if |pieces| < 2 then Err(IndexOutOfBounds)
    else
      var second := ParseI32(pieces[1]);
      if second.None? then Err(InvalidInput) else Ok(Item(first.value, second.value))
  }

  /** Two space-free pieces and a space between them make the first two pieces of the line. */
  lemma SplitTwoFields(a: string, b: string, rest: string)
    requires ' ' !in a && ' ' !in b
    requires rest == [] || rest[0] == ' '
    ensures |Split(a + " " + b + rest, ' ')| >= 2
    ensures Split(a + " " + b + rest, ' ')[0] == a && Split(a + " " + b + rest, ' ')[1] == b
  {
    var tail := " " + b + rest;
    assert tail[0] == ' ' && tail[1..] == b + rest;
    assert a + " " + b + rest == a + tail;
    SplitLeadingPiece(a, ' ', tail);
    SplitLeadingPiece(b, ' ', rest);
    var pieces := Split(b + rest, ' ');
    assert pieces[0] == b;
    assert Split(a + tail, ' ') == [a] + pieces;
  }

  /**
   * A line holding the rendering of two `i32`s separated by one space gives
   * them back as value and weight, whatever follows a further space.
   */
  lemma FromLineRoundTrip(v: int, w: int, rest: string)
    requires InI32(v) && InI32(w)
    requires rest == [] || rest[0] == ' '
    ensures FromLine(FormatI32(v) + " " + FormatI32(w) + rest) == Ok(Item(v, w))
  {
    SplitTwoFields(FormatI32(v), FormatI32(w), rest);
    ParseFormatI32(v);
    ParseFormatI32(w);
  }

  /** A line holding a single number panics on the missing second field. */
  lemma FromLineSingleField(v: int)
    requires InI32(v)
    ensures FromLine(FormatI32(v)) == Err(IndexOutOfBounds)
  {
    SplitNoSeparator(FormatI32(v), ' ');
    ParseFormatI32(v);
  }

  /** A first field that does not parse panics, whatever follows it. */
  lemma FromLineBadFirstField(a: string, rest: string)
    requires ' ' !in a && ParseI32(a).None?
    requires rest == [] || rest[0] == ' '
    ensures FromLine(a + rest) == Err(InvalidInput)
  {
    SplitLeadingPiece(a, ' ', rest);
  }

  /** The first line of the crate's `representation` test. */
  lemma FromLineFirstExample()
    ensures FromLine("10 12") == Ok(Item(10, 12))
  {
    assert FormatI32(10) == "10" by {
      assert FormatNat(10) == FormatNat(1) + "0";
    }
    assert FormatI32(12) == "12" by {
      assert FormatNat(12) == FormatNat(1) + "2";
    }
    assert "10" + " " + "12" + "" == "10 12";
    FromLineRoundTrip(10, 12, "");
  }

  /** The second line of the crate's `representation` test. */
  lemma FromLineSecondExample()
    ensures FromLine("923 2006") == Ok(Item(923, 2006))
  {
    assert FormatI32(923) == "923" by {
      assert FormatNat(92) == FormatNat(9) + "2";
      assert FormatNat(923) == FormatNat(92) + "3";
    }
    assert FormatI32(2006) == "2006" by {
      assert FormatNat(20) == FormatNat(2) + "0";
      assert FormatNat(200) == FormatNat(20) + "0";
      assert FormatNat(2006) == FormatNat(200) + "6";
    }
    assert "923" + " " + "2006" + "" == "923 2006";
    FromLineRoundTrip(923, 2006, "");
  }

  /** `knapsack`: not yet written; it answers 2 whatever it is given. */
  function Knapsack(items: seq<Item>, w: int): (r: int)
    ensures r == 2
  {
    2
  }
}
