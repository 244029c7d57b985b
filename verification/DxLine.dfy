/** The text of an element, as it stands on a line of the file, and what the line buffer makes of it. */
module DxLine {
  import opened DxSave

  // ---- numbers ---------------------------------------------------------------------------------------------------

  function Digits(n: nat): (s: string)
    ensures |s| > 0
  {
    if n < 10 then [('0' as int + n) as char] else Digits(n / 10) + [('0' as int + n % 10) as char]
  }

  function Number(n: int): (s: string)
    ensures |s| > 0
  {
    if n < 0 then "-" + Digits(-n) else Digits(n)
  }

  /** A frequency with two decimals. */
  function Decimal(x: real): string {
    var h := (x * 100.0).Floor;
    var a := if h < 0 then -h else h;
    (if h < 0 then "-" else "") + Digits(a / 100) + "." + Digits(a % 100 / 10) + Digits(a % 10)
  }

  const MODES := ["AM", "AMN", "USB", "LSB", "CW", "CWN", "NBFM", "IQ", "DRM",
                  "USN", "LSN", "SAM", "SAU", "SAL", "SAS", "QAM", "NNFM"]

  function ModeName(mode: bv32): string { if (mode as int) < |MODES| then MODES[mode as int] else "" }

  // ---- the element ---------------------------------------------------------------------------------------------------

  function Quoted(s: string): string { "\"" + s + "\"" }

  function FieldText(f: Field): string {
    match f
    case TypeNo(t) => Quoted("T" + Digits(t as int)) + ":1"
    case Lo(n) => "\"lo\":" + Number(n)
    case Hi(n) => "\"hi\":" + Number(n)
    case Offset(n) => "\"o\":" + Number(n)
    case Width(n) => "\"s\":" + Number(n)
    case Days(d) => "\"d0\":" + Digits(d as int)
    case BeginAt(t) => "\"b0\":" + Digits(t)
    case EndAt(t) => "\"e0\":" + Digits(t)
    case Params(p) => "\"p\":" + Quoted(p)
  }

  /** The options one after the other, each behind a separator. */
  function FieldTexts(fs: seq<Field>): string {
    if |fs| == 0 then ""
    else FieldTexts(fs[..|fs| - 1]) + (if |fs| == 1 then ", {" else ", ") + FieldText(fs[|fs| - 1])
  }

  function OptionsText(fs: seq<Field>): string { if |fs| == 0 then "" else FieldTexts(fs) + "}" }

  function Fixed(e: Elem): string { "[" + Decimal(e.freq) + ", " + Quoted(ModeName(e.mode)) + ", " }

  function ElemText(e: Elem): string {
    Fixed(e) + Quoted(e.ident) + ", " + Quoted(e.notes) + OptionsText(e.opts) + "]"
  }

  /** The element's line: all but the last end in a comma. */
  function LineText(e: Elem, last: bool): string { ElemText(e) + (if last then "" else ",") + "\n" }

  // ---- the line buffer ---------------------------------------------------------------------------------------------------

  const LBUF := 512

  /** One read from the file: a whole line, or as much of it as the buffer holds beside its terminator. */
  function Piece(line: string): string { if |line| <= LBUF - 1 then line else line[..LBUF - 1] }

  /** The last character read is taken for the newline and removed, and a comma before it. */
  function Trimmed(s: string): string {
    if |s| == 0 then s
    else
      var t := s[..|s| - 1];
      if |t| > 0 && t[|t| - 1] == ',' then t[..|t| - 1] else t
  }

  predicate Fits(e: Elem) { |ElemText(e)| <= LBUF - 2 }

  /** The first read gives the whole element exactly when its text leaves two characters of the buffer free, last line or
      not; otherwise it gives a part of the element that its closing bracket is missing from. */
  lemma FitsExact(e: Elem, last: bool)
    ensures Trimmed(Piece(LineText(e, last))) == ElemText(e) <==> Fits(e)
    ensures !Fits(e) ==> var t := Trimmed(Piece(LineText(e, last))); |t| < |ElemText(e)| && t == ElemText(e)[..|t|]
  {
    var t, line := ElemText(e), LineText(e, last);
    assert t[|t| - 1] == ']';
    LineCut(t, if last then "" else ",", line);
  }

  lemma LineCut(t: string, comma: string, line: string)
    requires line == t + comma + "\n" && (comma == "" || comma == ",") && |t| > 0 && t[|t| - 1] == ']'
    ensures |t| <= LBUF - 2 ==> Trimmed(Piece(line)) == t
    ensures |t| > LBUF - 2 ==> var c := Trimmed(Piece(line)); |c| < |t| && c == t[..|c|]
  {
    var p := Piece(line);
    if |t| <= LBUF - 2 {
      assert p[..|p| - 1] == if |line| <= LBUF - 1 then t + comma else t;
    } else {
      assert p == t[..LBUF - 1] && p[..|p| - 1] == t[..LBUF - 2];
    }
  }

  /** What the first read of a line makes of the element on it. */
  method ReadPiece(e: Elem, last: bool) returns (whole: bool)
    ensures whole <==> Fits(e)
  {
    hide ElemText, Piece, Trimmed;
    FitsExact(e, last);
    var s := Piece(LineText(e, last));
    whole := Trimmed(s) == ElemText(e);
  }

  /** A text is part of its element. */
  lemma LongText(e: Elem)
    ensures |ElemText(e)| >= |e.ident| + |e.notes|
  {
    hide Decimal, ModeName, OptionsText;
  }
}
