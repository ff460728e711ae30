/** The text line `onDraw` writes at the top of the face: the five hex digits
    joined as `H:H:H,H.H`, each digit turned into a character by `toHex`. */
module HexLabel {
  import HexClock

  datatype Option<T> = None | Some(value: T)

  /** `Character.forDigit(v, 16)`: a lower-case digit character, or the
      null character when `v` is not a base-16 digit. */
  function ForDigit(v: int): (c: char)
    ensures HexClock.IsHexDigit(v) <==> c != '\0'
    ensures 0 <= v < 10 ==> '0' <= c <= '9'
    ensures 10 <= v < 16 ==> 'a' <= c <= 'f'
  {
    if 0 <= v < 10 then ('0' as int + v) as char
    else if 10 <= v < 16 then ('a' as int + v - 10) as char
    else '\0'
  }

  /** `Character.toUpperCase` on the characters `ForDigit` can produce. */
  function UpperCase(c: char): (u: char)
    ensures 'a' <= c <= 'f' ==> 'A' <= u <= 'F'
    ensures !('a' <= c <= 'z') ==> u == c
  {
    if 'a' <= c <= 'z' then (c as int - 32) as char else c
  }

  predicate IsUpperHexChar(c: char)
  {
    '0' <= c <= '9' || 'A' <= c <= 'F'
  }

  /** `toHex`: a digit as an upper-case hex character. A value outside 0..15
      (a digit of an instant before the epoch) becomes the null character. */
  function ToHex(v: int): (c: char)
    ensures HexClock.IsHexDigit(v) <==> IsUpperHexChar(c)
    ensures !HexClock.IsHexDigit(v) ==> c == '\0'
  {
    UpperCase(ForDigit(v))
  }

  /** The digit an upper-case hex character stands for. */
  function HexValue(c: char): (r: Option<int>)
    ensures r.Some? <==> IsUpperHexChar(c)
    ensures r.Some? ==> HexClock.IsHexDigit(r.value)
  {
    if '0' <= c <= '9' then Some(c as int - '0' as int)
    else if 'A' <= c <= 'F' then Some(c as int - 'A' as int + 10)
    else None
  }

  /** `toHex` is one-to-one from 0..15 onto `'0'..'9', 'A'..'F'`: each digit
      reads back as itself, and each such character is the image of the digit
      it reads as. */
  lemma ToHexRoundTrip(v: int, c: char)
    ensures HexClock.IsHexDigit(v) ==> HexValue(ToHex(v)) == Some(v)
    ensures HexValue(c).Some? ==> ToHex(HexValue(c).value) == c
  {
  }

  /** The label `toHex(h1) + ":" + toHex(h2) + ":" + toHex(h3) + "," +
      toHex(h4) + "." + toHex(h5)`. */
  function Label(ds: seq<int>): (s: string)
    requires |ds| == HexClock.DigitCount
    ensures |s| == 9
    ensures forall i :: 0 <= i < HexClock.DigitCount ==> s[2 * i] == ToHex(ds[i])
    ensures s[1] == ':' && s[3] == ':' && s[5] == ',' && s[7] == '.'
  {
    [ToHex(ds[0])] + ":" + [ToHex(ds[1])] + ":" + [ToHex(ds[2])] + "," + [ToHex(ds[3])] + "." + [ToHex(ds[4])]
  }

  /** Reads a label back into its five digits; `None` for any other text. */
  function ParseLabel(s: string): (r: Option<seq<int>>)
    ensures r.Some? ==> |r.value| == HexClock.DigitCount
  {
    if |s| == 9 && s[1] == ':' && s[3] == ':' && s[5] == ',' && s[7] == '.'
       && HexValue(s[0]).Some? && HexValue(s[2]).Some? && HexValue(s[4]).Some?
       && HexValue(s[6]).Some? && HexValue(s[8]).Some?
    then Some([HexValue(s[0]).value, HexValue(s[2]).value, HexValue(s[4]).value,
               HexValue(s[6]).value, HexValue(s[8]).value])
    else None
  }

  /** A label of five hex digits reads back as those digits, and any text
      that reads as digits is exactly their label. */
  lemma LabelRoundTrip(ds: seq<int>, s: string)
    requires |ds| == HexClock.DigitCount
    ensures (forall i :: 0 <= i < |ds| ==> HexClock.IsHexDigit(ds[i])) ==> ParseLabel(Label(ds)) == Some(ds)
    ensures ParseLabel(s).Some? ==> Label(ParseLabel(s).value) == s
  {
    if forall i :: 0 <= i < |ds| ==> HexClock.IsHexDigit(ds[i]) {
      var l := Label(ds);
      forall i | 0 <= i < HexClock.DigitCount
        ensures HexValue(l[2 * i]) == Some(ds[i])
      {
        ToHexRoundTrip(ds[i], l[2 * i]);
      }
      assert HexValue(l[0]) == Some(ds[0]) && HexValue(l[2]) == Some(ds[1]) && HexValue(l[4]) == Some(ds[2]);
      assert HexValue(l[6]) == Some(ds[3]) && HexValue(l[8]) == Some(ds[4]);
      assert ds == [ds[0], ds[1], ds[2], ds[3], ds[4]];
    }
    if ParseLabel(s).Some? {
      var l := Label(ParseLabel(s).value);
      forall i | 0 <= i < 9 ensures l[i] == s[i] {
        if i % 2 == 0 {
          ToHexRoundTrip(0, s[i]);
        }
      }
    }
  }

  /** The label `onDraw` shows for an instant. */
  function HexTimeLabel(instant: int): (s: string)
    ensures |s| == 9
    ensures instant >= 0 ==> forall i :: 0 <= i < 9 && i % 2 == 0 ==> IsUpperHexChar(s[i])
  {
    Label(HexClock.HexDigits(instant))
  }

  /** For a non-negative instant the label is nine characters that read back
      as that instant's five digits. */
  lemma HexTimeLabelReadsBack(instant: int)
    requires instant >= 0
    ensures |HexTimeLabel(instant)| == 9
    ensures ParseLabel(HexTimeLabel(instant)) == Some(HexClock.HexDigits(instant))
  {
    HexClock.DigitsInRange(instant);
    LabelRoundTrip(HexClock.HexDigits(instant), "");
  }

  /** Noon reads `8:0:0,0.0`; the last millisecond of the day reads `F:F:F,F.F`. */
  lemma KnownLabels()
    ensures HexTimeLabel(43200000) == "8:0:0,0.0"
    ensures HexTimeLabel(86399999) == "F:F:F,F.F"
    ensures HexTimeLabel(0) == "0:0:0,0.0"
  {
    HexClock.KnownInstants();
  }
}
