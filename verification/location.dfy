/** Grid locations (location.py): non-negative integer coordinates,
    the Manhattan distance, the `"row,col"` reader and the `(row, col)` printer. */
module Locations {
  import opened Wrappers
  import opened Text

  /** The source's constructor assigns a coordinate only when it is
      non-negative; the model admits non-negative coordinates only, so every
      `Location` is fully initialised. Equality is structural, as in the
      source's `__eq__`. */
  datatype Location = Location(row: nat, column: nat)

  /** `Location.__eq__` compares rows and columns, which is the datatype's own equality. */
  lemma {:induction false} EqualityIsCoordinates(a: Location, b: Location)
    ensures a == b <==> a.row == b.row && a.column == b.column
  {
  }

  function Abs(x: int): nat {
    if x < 0 then -x else x
  }

  /** `manhattan_distance(origin, destination)`. */
  function Distance(a: Location, b: Location): (d: nat)
    ensures d == 0 <==> a == b
    ensures d >= Abs(a.row - b.row) && d >= Abs(a.column - b.column)
  {
    Abs(a.row - b.row) + Abs(a.column - b.column)
  }

  lemma {:induction false} DistanceSymmetric(a: Location, b: Location)
    ensures Distance(a, b) == Distance(b, a)
  {
  }

  lemma {:induction false} DistanceTriangle(a: Location, b: Location, c: Location)
    ensures Distance(a, c) <= Distance(a, b) + Distance(b, c)
  {
  }

  /** `str(location)`: `"(row, column)"`. */
  function Show(l: Location): string {
    "(" + IntToDecimal(l.row) + ", " + IntToDecimal(l.column) + ")"
  }

  /** Inside the parentheses of `str(location)` is text that
      `deserialize_location` reads back as the same location. */
  lemma {:induction false} ShowReadsBack(l: Location)
    ensures |Show(l)| >= 2 && Show(l)[0] == '(' && Show(l)[|Show(l)| - 1] == ')'
    ensures Deserialize(Show(l)[1..|Show(l)| - 1]) == Success(l)
  {
    var inner := IntToDecimal(l.row) + ", " + IntToDecimal(l.column);
    assert Show(l)[1..|Show(l)| - 1] == inner;
    ShownReadsBack(l);
  }

  /** `"row, column"` is read as the location: `int` skips the space. */
  lemma {:induction false} ShownReadsBack(l: Location)
    ensures Deserialize(IntToDecimal(l.row) + ", " + IntToDecimal(l.column)) == Success(l)
  {
    var r, c := IntToDecimal(l.row), IntToDecimal(l.column);
    var s := r + ", " + c;
    DecimalHasNoComma(l.row);
    assert s == r + [','] + (" " + c);
    SplitOnFirst(r, ',', " " + c);
    DecimalHasNoComma(l.column);
    assert ',' !in " " + c;
    assert Pieces(s) == [r, " " + c];
    IntRoundTrip(l.row);
    IntRoundTrip(l.column);
    ParseIntSkipsSpace(" ", c, "");
    assert " " + c + "" == " " + c;
    DeserializeOfPieces(s, l.row, l.column);
  }

  /** `deserialize_location(s)`: the integers before and after the first
      comma; text after a second comma is ignored. The first `int` call runs
      before the second piece is looked up, so a bad first number is reported
      before a missing comma. */
  function Deserialize(s: string): (r: Result<Location, DecodeError>)
    ensures r.Success? <==>
      && |Pieces(s)| >= 2
      && ParseInt(Pieces(s)[0]).Some? && ParseInt(Pieces(s)[0]).value >= 0
      && ParseInt(Pieces(s)[1]).Some? && ParseInt(Pieces(s)[1]).value >= 0
    ensures r.Success? ==>
      && r.value.row == ParseInt(Pieces(s)[0]).value
      && r.value.column == ParseInt(Pieces(s)[1]).value
    ensures ParseInt(Pieces(s)[0]).None? ==> r == Failure(BadInteger)
  {
    var parts := Pieces(s);
    match ParseInt(parts[0])
    case None => Failure(BadInteger)
    case Some(row) =>
      if |parts| < 2 then Failure(MissingField)
      else
        match ParseInt(parts[1])
        case None => Failure(BadInteger)
        case Some(column) =>
          if row < 0 || column < 0 then Failure(NegativeCoordinate)
          else Success(Location(row, column))
  }

  /** `s.split(',')`. */
  function Pieces(s: string): (parts: seq<string>)
    ensures |parts| > 0
  {
    SplitOn(s, ',')
  }

  /** The event-file spelling of a location, `"row,col"`. */
  function Serialize(l: Location): string {
    IntToDecimal(l.row) + "," + IntToDecimal(l.column)
  }

  lemma {:induction false} DecimalHasNoComma(i: int)
    ensures ',' !in IntToDecimal(i)
  {
    if i < 0 {
      assert IntToDecimal(i)[1..] == NatToDecimal(-i);
    }
  }

  /** Reading back the event-file spelling of a location gives the location. */
  lemma {:induction false} DeserializeSerialize(l: Location)
    ensures Deserialize(Serialize(l)) == Success(l)
  {
    var r, c := IntToDecimal(l.row), IntToDecimal(l.column);
    DecimalHasNoComma(l.row);
    DecimalHasNoComma(l.column);
    SplitOnFirst(r, ',', c);
    assert Serialize(l) == r + [','] + c;
    assert Pieces(Serialize(l)) == [r, c];
    IntRoundTrip(l.row);
    IntRoundTrip(l.column);
  }

  /** Decoding `"r,c"` and printing the result gives `"(r, c)"`. */
  lemma {:induction false} PrintDecoded(row: nat, column: nat)
    ensures Deserialize(IntToDecimal(row) + "," + IntToDecimal(column)).Success?
    ensures Show(Deserialize(IntToDecimal(row) + "," + IntToDecimal(column)).value)
         == "(" + IntToDecimal(row) + ", " + IntToDecimal(column) + ")"
  {
    DeserializeSerialize(Location(row, column));
  }

  /** The doctest of `deserialize_location`: `'4, 6'` prints as `(4, 6)`;
      the space after the comma is stripped by `int`. */
  lemma {:induction false} DeserializeDoctest()
    ensures Deserialize("4, 6") == Success(Location(4, 6))
    ensures Show(Location(4, 6)) == "(4, 6)"
  {
    DoctestPieces();
    ParseFour();
    ParseSpaceSix();
    DeserializeOfPieces("4, 6", 4, 6);
    ShowDoctest();
  }

  lemma {:induction false} ShowDoctest()
    ensures Show(Location(4, 6)) == "(4, 6)"
  {
    assert NatToDecimal(4) == "4";
    assert NatToDecimal(6) == "6";
  }

  lemma {:induction false} ParseFour()
    ensures ParseInt("4") == Some(4)
  {
    assert NatToDecimal(4) == "4";
    NatRoundTrip(4);
  }

  lemma {:induction false} ParseSpaceSix()
    ensures ParseInt(" 6") == Some(6)
  {
    assert ParseInt("6") == Some(6) by {
      assert NatToDecimal(6) == "6";
      NatRoundTrip(6);
    }
    assert " " + "6" + "" == " 6";
    ParseIntSkipsSpace(" ", "6", "");
  }

  lemma {:induction false} DeserializeOfPieces(s: string, row: nat, column: nat)
    requires |Pieces(s)| >= 2
    requires ParseInt(Pieces(s)[0]) == Some(row as int) && ParseInt(Pieces(s)[1]) == Some(column as int)
    ensures Deserialize(s) == Success(Location(row, column))
  {
  }

  lemma {:induction false} DoctestPieces()
    ensures Pieces("4, 6") == ["4", " 6"]
  {
    assert "4, 6" == "4" + [','] + " 6";
    SplitOnFirst("4", ',', " 6");
    assert ',' !in " 6";
  }
}
