/**
 * getNumberTags: the properties of one number computed directly, with the
 * colour taken from the colour lookup (a separate module, so a parameter here).
 */
module NumberTags {
  import opened Classification

  datatype NumberTags = NumberTags(
    color: Color,
    parity: Parity,
    range: Range,
    dozen: Dozen,
    column: Column,
    street: Street)

  /** 'red' is Red, 'black' is Black, and any other lookup answer is Green. */
  function ColorFromLookup(colorValue: string): (c: Color)
    ensures c == Red <==> colorValue == "red"
    ensures c == Black <==> colorValue == "black"
  {
    if colorValue == "red" then Red else if colorValue == "black" then Black else Green
  }

  /** The lookup answer that the master table's colour corresponds to. */
  function LookupAnswer(c: Color): string
  {
    match c
    case Red => "red"
    case Black => "black"
    case Green => "green"
  }

  function GetNumberTags(num: int, colorValue: string): (r: NumberTags)
    ensures r.color == ColorFromLookup(colorValue)
    ensures var e := Classify(num);
      r.parity == e.parity && r.range == e.range && r.dozen == e.dozen
      && r.column == e.column && r.street == e.street
  {
    var parity := if num == 0 then Even else if num % 2 == 0 then Even else Odd;
    var range := if num == 0 then RangeZero else if 1 <= num <= 18 then Low else High;
    var dozen :=
      if num == 0 then DozenZero
      else if 1 <= num <= 12 then FirstDozen
      else if 13 <= num <= 24 then SecondDozen
      else ThirdDozen;
    var column :=
      if num == 0 then ColumnZero
      else if num in [1, 4, 7, 10, 13, 16, 19, 22, 25, 28, 31, 34] then FirstColumn
      else if num in [2, 5, 8, 11, 14, 17, 20, 23, 26, 29, 32, 35] then SecondColumn
      else ThirdColumn;
    var street := if num == 0 then StreetZero else StreetNo(CeilThird(num));
    NumberTags(ColorFromLookup(colorValue), parity, range, dozen, column, street)
  }

  /**
   * When the colour lookup answers as the master table colours, the two
   * classifications of a number agree on every attribute.
   */
  lemma AgreesWithMasterTable(num: int)
    requires 0 <= num <= 36
    ensures var r := GetNumberTags(num, LookupAnswer(ColorOf(num)));
      var e := MasterTable()[num];
      r == NumberTags(e.color, e.parity, e.range, e.dozen, e.column, e.street)
  {
    MasterTableShape();
  }
}
