/**
 * The transaction-selection lines that the node writes to its log, and how
 * `get_first_matching_transaction_selection_log` recognises and decodes them:
 * an anchored regular expression whose first group is then handed to
 * `json.loads`.
 *
 *   selection#<digits>:<spaces>{"hash":"<64 hex>","ppu":<digits>,"nonce":<digits>,
 *     "sender":"<64 hex>","gasPrice":<digits>,"gasLimit":<digits>,
 *     "receiver":"<1+ hex>","dataLength":<digits>}
 */
module SelectionLog {
  import opened Common
  import opened Text

  predicate IsAsciiDigit(c: char) {
    '0' <= c <= '9'
  }

  /** `\d` in a `str` pattern: a character of the Unicode category Nd (decimal
    * digit) in Unicode 15.0, the version of CPython 3.12: the ten ASCII digits and
    * 670 others. */
  predicate IsDecimalDigit(c: char) {
    IsAsciiDigit(c) || (c as int >= 0x660 && IsOtherDecimalDigit(c as int))
  }

  /** The code points of the decimal digits beyond ASCII. */
  predicate IsOtherDecimalDigit(n: int) {
    (0x660 <= n <= 0x669) || (0x6F0 <= n <= 0x6F9) || (0x7C0 <= n <= 0x7C9) || (0x966 <= n <= 0x96F)
    || (0x9E6 <= n <= 0x9EF) || (0xA66 <= n <= 0xA6F) || (0xAE6 <= n <= 0xAEF) || (0xB66 <= n <= 0xB6F)
    || (0xBE6 <= n <= 0xBEF) || (0xC66 <= n <= 0xC6F) || (0xCE6 <= n <= 0xCEF) || (0xD66 <= n <= 0xD6F)
    || (0xDE6 <= n <= 0xDEF) || (0xE50 <= n <= 0xE59) || (0xED0 <= n <= 0xED9) || (0xF20 <= n <= 0xF29)
    || (0x1040 <= n <= 0x1049) || (0x1090 <= n <= 0x1099) || (0x17E0 <= n <= 0x17E9) || (0x1810 <= n <= 0x1819)
    || (0x1946 <= n <= 0x194F) || (0x19D0 <= n <= 0x19D9) || (0x1A80 <= n <= 0x1A89) || (0x1A90 <= n <= 0x1A99)
    || (0x1B50 <= n <= 0x1B59) || (0x1BB0 <= n <= 0x1BB9) || (0x1C40 <= n <= 0x1C49) || (0x1C50 <= n <= 0x1C59)
    || (0xA620 <= n <= 0xA629) || (0xA8D0 <= n <= 0xA8D9) || (0xA900 <= n <= 0xA909) || (0xA9D0 <= n <= 0xA9D9)
    || (0xA9F0 <= n <= 0xA9F9) || (0xAA50 <= n <= 0xAA59) || (0xABF0 <= n <= 0xABF9) || (0xFF10 <= n <= 0xFF19)
    || (0x104A0 <= n <= 0x104A9) || (0x10D30 <= n <= 0x10D39) || (0x11066 <= n <= 0x1106F) || (0x110F0 <= n <= 0x110F9)
    || (0x11136 <= n <= 0x1113F) || (0x111D0 <= n <= 0x111D9) || (0x112F0 <= n <= 0x112F9) || (0x11450 <= n <= 0x11459)
    || (0x114D0 <= n <= 0x114D9) || (0x11650 <= n <= 0x11659) || (0x116C0 <= n <= 0x116C9) || (0x11730 <= n <= 0x11739)
    || (0x118E0 <= n <= 0x118E9) || (0x11950 <= n <= 0x11959) || (0x11C50 <= n <= 0x11C59) || (0x11D50 <= n <= 0x11D59)
    || (0x11DA0 <= n <= 0x11DA9) || (0x11F50 <= n <= 0x11F59) || (0x16A60 <= n <= 0x16A69) || (0x16AC0 <= n <= 0x16AC9)
    || (0x16B50 <= n <= 0x16B59) || (0x1D7CE <= n <= 0x1D7FF) || (0x1E140 <= n <= 0x1E149) || (0x1E2F0 <= n <= 0x1E2F9)
    || (0x1E4F0 <= n <= 0x1E4F9) || (0x1E950 <= n <= 0x1E959) || (0x1FBF0 <= n <= 0x1FBF9)
  }

  /** `[0-9a-fA-F]`: the regular expression accepts both cases. */
  predicate IsHexChar(c: char) {
    '0' <= c <= '9' || 'a' <= c <= 'f' || 'A' <= c <= 'F'
  }

  /** `\d+`: a non-empty run of decimal digits. */
  predicate IsDigits(s: string) {
    s != [] && forall i :: 0 <= i < |s| ==> IsDecimalDigit(s[i])
  }

  /** A non-empty run of ASCII digits, the only digits a JSON number may hold. */
  predicate IsAsciiDigits(s: string) {
    s != [] && forall i :: 0 <= i < |s| ==> IsAsciiDigit(s[i])
  }

  predicate IsHexText(s: string) {
    s != [] && forall i :: 0 <= i < |s| ==> IsHexChar(s[i])
  }

  /** The texts of the eight fields as the regular expression captures them. */
  datatype RawFields = RawFields(
    hash: string, ppu: string, nonce: string, sender: string,
    gasPrice: string, gasLimit: string, receiver: string, dataLength: string)

  /** The field texts have the shapes the regular expression demands. */
  predicate WellShaped(f: RawFields) {
    && |f.hash| == 64 && IsHexText(f.hash)
    && |f.sender| == 64 && IsHexText(f.sender)
    && IsHexText(f.receiver)
    && IsDigits(f.ppu) && IsDigits(f.nonce) && IsDigits(f.gasPrice)
    && IsDigits(f.gasLimit) && IsDigits(f.dataLength)
  }

  /** The dictionary that `json.loads` returns for an accepted line. */
  datatype SelectionRecord = SelectionRecord(
    hash: string, ppu: nat, nonce: nat, sender: string,
    gasPrice: nat, gasLimit: nat, receiver: string, dataLength: nat)

  // ---------------------------------------------------------------------------
  // The text of a selection line

  /** The JSON object of group 1, built from its field texts. */
  function JsonText(f: RawFields): string {
    "{\"hash\":\"" + (f.hash + JsonAfterHash(f))
  }

  /** The part of the JSON object that follows the hash value. */
  function JsonAfterHash(f: RawFields): string {
    "\",\"ppu\":" + (f.ppu + (",\"nonce\":" + (f.nonce
    + (",\"sender\":\"" + (f.sender + ("\",\"gasPrice\":" + (f.gasPrice
    + (",\"gasLimit\":" + (f.gasLimit + (",\"receiver\":\"" + (f.receiver
    + ("\",\"dataLength\":" + (f.dataLength + "}")))))))))))))
  }

  /** A whole log line: prefix, ordinal, colon, optional whitespace, the JSON
    * object, and possibly one final newline (which `$` also accepts). */
  function LineText(ordinal: string, gap: string, f: RawFields, newline: bool): string {
    "selection#" + (ordinal + (":" + (gap + (JsonText(f) + (if newline then "\n" else "")))))
  }

  // ---------------------------------------------------------------------------
  // Scanning steps

  /** Consumes the literal `p` at the front of `s`. */
  function Literal(s: string, p: string): (r: Option<string>)
    ensures r.Some? <==> |p| <= |s| && s[..|p|] == p
    ensures r.Some? ==> s == p + r.value
  {
    if |p| <= |s| && s[..|p|] == p then Some(s[|p|..]) else None
  }

  /** The number of decimal digits that open `s`. */
  function DigitRun(s: string): (n: nat)
    ensures n <= |s|
    ensures forall i :: 0 <= i < n ==> IsDecimalDigit(s[i])
    ensures n < |s| ==> !IsDecimalDigit(s[n])
  {
    if s == [] || !IsDecimalDigit(s[0]) then 0 else 1 + DigitRun(s[1..])
  }

  /** The number of ASCII digits that open `s`. */
  function AsciiRun(s: string): (n: nat)
    ensures n <= |s|
    ensures forall i :: 0 <= i < n ==> IsAsciiDigit(s[i])
    ensures n < |s| ==> !IsAsciiDigit(s[n])
  {
    if s == [] || !IsAsciiDigit(s[0]) then 0 else 1 + AsciiRun(s[1..])
  }

  /** The number of hexadecimal characters that open `s`. */
  function HexRun(s: string): (n: nat)
    ensures n <= |s|
    ensures forall i :: 0 <= i < n ==> IsHexChar(s[i])
    ensures n < |s| ==> !IsHexChar(s[n])
  {
    if s == [] || !IsHexChar(s[0]) then 0 else 1 + HexRun(s[1..])
  }

  /** `\d+`: a non-empty maximal run of digits, and what follows it. */
  function TakeDigits(s: string): (r: Option<(string, string)>)
    ensures r.Some? ==> s == r.value.0 + r.value.1 && IsDigits(r.value.0)
  {
    var n := DigitRun(s);
    if n == 0 then None
    else
      assert forall i :: 0 <= i < n ==> s[..n][i] == s[i];
      Some((s[..n], s[n..]))
  }

  /** `[0-9a-fA-F]+`: a non-empty maximal run of hex characters, and what follows it. */
  function TakeHex(s: string): (r: Option<(string, string)>)
    ensures r.Some? ==> s == r.value.0 + r.value.1 && IsHexText(r.value.0)
  {
    var n := HexRun(s);
    if n == 0 then None
    else
      assert forall i :: 0 <= i < n ==> s[..n][i] == s[i];
      Some((s[..n], s[n..]))
  }

  /** `[0-9a-fA-F]{k}`: exactly `k` hex characters, and what follows them. */
  function TakeHexExactly(s: string, k: nat): (r: Option<(string, string)>)
    requires k > 0
    ensures r.Some? ==> s == r.value.0 + r.value.1 && |r.value.0| == k && IsHexText(r.value.0)
  {
    if HexRun(s) < k then None
    else
      assert forall i :: 0 <= i < k ==> s[..k][i] == s[i];
      Some((s[..k], s[k..]))
  }

  /** Group 1 with the final `\n` that `$` tolerates removed. */
  function DropFinalNewline(s: string): string {
    if s != [] && s[|s| - 1] == '\n' then s[..|s| - 1] else s
  }

  // ---------------------------------------------------------------------------
  // The regular expression

  /** Parses the JSON object of group 1 in the fixed field order, up to its end. */
  function MatchJson(body: string): Option<RawFields> {
    var b1 :- Literal(body, "{\"hash\":\"");
    var hash :- TakeHexExactly(b1, 64);
    var b2 :- Literal(hash.1, "\",\"ppu\":");
    var ppu :- TakeDigits(b2);
    var b3 :- Literal(ppu.1, ",\"nonce\":");
    var nonce :- TakeDigits(b3);
    var b4 :- Literal(nonce.1, ",\"sender\":\"");
    var sender :- TakeHexExactly(b4, 64);
    var b5 :- Literal(sender.1, "\",\"gasPrice\":");
    var gasPrice :- TakeDigits(b5);
    var b6 :- Literal(gasPrice.1, ",\"gasLimit\":");
    var gasLimit :- TakeDigits(b6);
    var b7 :- Literal(gasLimit.1, ",\"receiver\":\"");
    var receiver :- TakeHex(b7);
    var b8 :- Literal(receiver.1, "\",\"dataLength\":");
    var dataLength :- TakeDigits(b8);
    var b9 :- Literal(dataLength.1, "}");
    if b9 != [] then None
    else Some(RawFields(hash.0, ppu.0, nonce.0, sender.0, gasPrice.0, gasLimit.0, receiver.0, dataLength.0))
  }

  /** `pattern.search(line)` with the anchored pattern: the field texts of group 1,
    * or `None` when the line does not match. */
  function MatchSelection(line: string): Option<RawFields> {
    var body :- SelectionBody(line);
    MatchJson(body)
  }

  /** The text the pattern offers its JSON group: what follows the prefix, the
    * ordinal, the colon and any whitespace, less a final newline. */
  function SelectionBody(line: string): Option<string> {
    var s1 :- Literal(line, "selection#");
    var ordinal :- TakeDigits(s1);
    var s2 :- Literal(ordinal.1, ":");
    Some(DropFinalNewline(TrimStart(s2)))
  }

  // ---------------------------------------------------------------------------
  // The regular expression accepts exactly the well-shaped lines

  lemma {:induction false} DigitRunOf(d: string, r: string)
    requires forall i :: 0 <= i < |d| ==> IsDecimalDigit(d[i])
    requires r == [] || !IsDecimalDigit(r[0])
    ensures DigitRun(d + r) == |d|
  {
    if d == [] {
      assert d + r == r;
    } else {
      assert (d + r)[0] == d[0];
      assert (d + r)[1..] == d[1..] + r;
      DigitRunOf(d[1..], r);
    }
  }

  lemma {:induction false} HexRunOf(h: string, r: string)
    requires forall i :: 0 <= i < |h| ==> IsHexChar(h[i])
    ensures HexRun(h + r) >= |h|
    ensures r == [] || !IsHexChar(r[0]) ==> HexRun(h + r) == |h|
  {
    if h == [] {
      assert h + r == r;
    } else {
      assert (h + r)[0] == h[0];
      assert (h + r)[1..] == h[1..] + r;
      HexRunOf(h[1..], r);
    }
  }

  lemma LiteralOf(p: string, r: string)
    ensures Literal(p + r, p) == Some(r)
  {
    assert (p + r)[..|p|] == p;
    assert (p + r)[|p|..] == r;
  }

  lemma TakeDigitsOf(d: string, r: string)
    requires IsDigits(d)
    requires r == [] || !IsDecimalDigit(r[0])
    ensures TakeDigits(d + r) == Some((d, r))
  {
    DigitRunOf(d, r);
    assert (d + r)[..|d|] == d && (d + r)[|d|..] == r;
  }

  lemma TakeHexOf(h: string, r: string)
    requires IsHexText(h)
    requires r == [] || !IsHexChar(r[0])
    ensures TakeHex(h + r) == Some((h, r))
  {
    HexRunOf(h, r);
    assert (h + r)[..|h|] == h && (h + r)[|h|..] == r;
  }

  lemma TakeHexExactlyOf(h: string, r: string)
    requires IsHexText(h)
    ensures TakeHexExactly(h + r, |h|) == Some((h, r))
  {
    HexRunOf(h, r);
    assert (h + r)[..|h|] == h && (h + r)[|h|..] == r;
  }

  /** Whatever `MatchJson` accepts is the JSON text of well-shaped fields. */
  lemma MatchJsonSound(body: string)
    requires MatchJson(body).Some?
    ensures WellShaped(MatchJson(body).value)
    ensures body == JsonText(MatchJson(body).value)
  {
    var b1 := Literal(body, "{\"hash\":\"").value;
    var hash := TakeHexExactly(b1, 64).value;
    var b2 := Literal(hash.1, "\",\"ppu\":").value;
    var ppu := TakeDigits(b2).value;
    var b3 := Literal(ppu.1, ",\"nonce\":").value;
    var nonce := TakeDigits(b3).value;
    var b4 := Literal(nonce.1, ",\"sender\":\"").value;
    var sender := TakeHexExactly(b4, 64).value;
    var b5 := Literal(sender.1, "\",\"gasPrice\":").value;
    var gasPrice := TakeDigits(b5).value;
    var b6 := Literal(gasPrice.1, ",\"gasLimit\":").value;
    var gasLimit := TakeDigits(b6).value;
    var b7 := Literal(gasLimit.1, ",\"receiver\":\"").value;
    var receiver := TakeHex(b7).value;
    var b8 := Literal(receiver.1, "\",\"dataLength\":").value;
    var dataLength := TakeDigits(b8).value;
    var b9 := Literal(dataLength.1, "}").value;
    assert b9 == [];
    var f := RawFields(hash.0, ppu.0, nonce.0, sender.0, gasPrice.0, gasLimit.0, receiver.0, dataLength.0);
    assert MatchJson(body) == Some(f);
    assert dataLength.1 == "}";
  }

  /** `MatchJson` accepts the JSON text of any well-shaped fields and gives them back. */
  lemma MatchJsonComplete(f: RawFields)
    requires WellShaped(f)
    ensures MatchJson(JsonText(f)) == Some(f)
  {
    var t9 := "}";
    var t8 := f.dataLength + t9;
    var s8 := "\",\"dataLength\":" + t8;
    var t7 := f.receiver + s8;
    var s7 := ",\"receiver\":\"" + t7;
    var t6 := f.gasLimit + s7;
    var s6 := ",\"gasLimit\":" + t6;
    var t5 := f.gasPrice + s6;
    var s5 := "\",\"gasPrice\":" + t5;
    var t4 := f.sender + s5;
    var s4 := ",\"sender\":\"" + t4;
    var t3 := f.nonce + s4;
    var s3 := ",\"nonce\":" + t3;
    var t2 := f.ppu + s3;
    var s2 := "\",\"ppu\":" + t2;
    var t1 := f.hash + s2;
    assert JsonText(f) == "{\"hash\":\"" + t1;
    LiteralOf("{\"hash\":\"", t1);
    TakeHexExactlyOf(f.hash, s2);
    LiteralOf("\",\"ppu\":", t2);
    TakeDigitsOf(f.ppu, s3);
    LiteralOf(",\"nonce\":", t3);
    TakeDigitsOf(f.nonce, s4);
    LiteralOf(",\"sender\":\"", t4);
    TakeHexExactlyOf(f.sender, s5);
    LiteralOf("\",\"gasPrice\":", t5);
    TakeDigitsOf(f.gasPrice, s6);
    LiteralOf(",\"gasLimit\":", t6);
    TakeDigitsOf(f.gasLimit, s7);
    LiteralOf(",\"receiver\":\"", t7);
    TakeHexOf(f.receiver, s8);
    LiteralOf("\",\"dataLength\":", t8);
    TakeDigitsOf(f.dataLength, t9);
    LiteralOf("}", []);
    assert "}" + [] == "}";
  }

  /** The prefix, ordinal, colon and whitespace in front of group 1. */
  lemma SplitSelectionLine(line: string) returns (ordinal: string, gap: string, t: string)
    requires SelectionBody(line).Some?
    ensures IsDigits(ordinal) && AllSpace(gap)
    ensures line == "selection#" + (ordinal + (":" + (gap + t)))
    ensures SelectionBody(line) == Some(DropFinalNewline(t))
  {
    var s2;
    ordinal, s2 := SplitSelectionPrefix(line);
    gap := TrimStartSplit(s2);
    t := TrimStart(s2);
  }

  /** The prefix, the ordinal and the colon that the pattern consumes first. */
  lemma SplitSelectionPrefix(line: string) returns (ordinal: string, s2: string)
    requires SelectionBody(line).Some?
    ensures IsDigits(ordinal) && line == "selection#" + (ordinal + (":" + s2))
    ensures SelectionBody(line) == Some(DropFinalNewline(TrimStart(s2)))
  {
    var s1 := Literal(line, "selection#").value;
    var o := TakeDigits(s1).value;
    ordinal := o.0;
    s2 := Literal(o.1, ":").value;
  }

  /** `s` is `DropFinalNewline(s)` followed by the newline it dropped, if any. */
  lemma DropFinalNewlineSplit(s: string) returns (newline: bool)
    ensures s == DropFinalNewline(s) + (if newline then "\n" else "")
  {
    newline := s != [] && s[|s| - 1] == '\n';
    if newline { assert s == s[..|s| - 1] + [s[|s| - 1]]; } else { assert s + [] == s; }
  }

  /** Every line the pattern matches is a selection line: prefix, a digit ordinal,
    * a colon, whitespace, the JSON object of well-shaped fields, perhaps one final newline. */
  lemma MatchSelectionSound(line: string)
    requires MatchSelection(line).Some?
    ensures exists ordinal, gap, newline ::
      IsDigits(ordinal) && AllSpace(gap) && line == LineText(ordinal, gap, MatchSelection(line).value, newline)
    ensures WellShaped(MatchSelection(line).value)
  {
    var ordinal, gap, t := SplitSelectionLine(line);
    var body := DropFinalNewline(t);
    assert MatchSelection(line) == MatchJson(body);
    var newline := DropFinalNewlineSplit(t);
    MatchJsonSound(body);
    assert line == LineText(ordinal, gap, MatchSelection(line).value, newline);
  }

  /** The pattern matches every selection line and captures its fields. */
  lemma MatchSelectionComplete(ordinal: string, gap: string, f: RawFields, newline: bool)
    requires IsDigits(ordinal) && AllSpace(gap) && WellShaped(f)
    ensures MatchSelection(LineText(ordinal, gap, f, newline)) == Some(f)
  {
    JsonTextBraces(f);
    SelectionBodyOf(ordinal, gap, JsonText(f), newline);
    MatchJsonComplete(f);
  }

  /** The JSON text opens with `{` and closes with `}`. */
  lemma JsonTextBraces(f: RawFields)
    ensures JsonText(f) != [] && JsonText(f)[0] == '{' && JsonText(f)[|JsonText(f)| - 1] == '}'
  {
    var tail := f.dataLength + "}";
    assert tail[|tail| - 1] == '}';
  }

  /** In front of a braced text `j`, the pattern skips the prefix, the ordinal, the
    * colon and the whitespace, and drops the one final newline. */
  lemma SelectionBodyOf(ordinal: string, gap: string, j: string, newline: bool)
    requires IsDigits(ordinal) && AllSpace(gap)
    requires j != [] && j[0] == '{' && j[|j| - 1] == '}'
    ensures SelectionBody("selection#" + (ordinal + (":" + (gap + (j + (if newline then "\n" else "")))))) == Some(j)
  {
    var t := j + (if newline then "\n" else "");
    SelectionBodyAfter(ordinal, gap + t);
    assert t[0] == '{';
    TrimStartOfSpace(gap, t);
    DropFinalNewlineOf(j, newline);
  }

  /** After the prefix, a digit ordinal and the colon, the pattern takes the rest. */
  lemma SelectionBodyAfter(ordinal: string, s2: string)
    requires IsDigits(ordinal)
    ensures SelectionBody("selection#" + (ordinal + (":" + s2))) == Some(DropFinalNewline(TrimStart(s2)))
  {
    TakeDigitsOf(ordinal, ":" + s2);
  }

  /** A text that does not end in a newline, with or without one added. */
  lemma DropFinalNewlineOf(j: string, newline: bool)
    requires j != [] && j[|j| - 1] != '\n'
    ensures DropFinalNewline(j + (if newline then "\n" else "")) == j
  {
    if newline {
      assert (j + "\n")[..|j|] == j;
    } else {
      assert j + "" == j;
    }
  }

  // ---------------------------------------------------------------------------
  // json.loads of group 1

  /** The form of a JSON integer: `0`, or digits that do not start with `0`.
    * `json.loads` raises `JSONDecodeError` on a number with a leading zero. */
  predicate CanonicalDigits(s: string) {
    IsAsciiDigits(s) && (s[0] != '0' || |s| == 1)
  }

  /** The value of a string of ASCII digits read in base 10. */
  function DecimalValue(s: string): nat
    requires forall i :: 0 <= i < |s| ==> IsAsciiDigit(s[i])
  {
    if s == [] then 0
    else
      var c := s[|s| - 1];
      assert IsAsciiDigit(c);
      DecimalValue(s[..|s| - 1]) * 10 + (c as int - '0' as int)
  }

  /** The canonical decimal text of `v`, as `json.dumps` and `str` write it. */
  function NatToDecimal(v: nat): (r: string)
    ensures CanonicalDigits(r)
    ensures r[0] == '0' <==> v == 0
    decreases v
  {
    if v < 10 then [('0' as int + v) as char]
    else NatToDecimal(v / 10) + [('0' as int + v % 10) as char]
  }

  lemma {:induction false} DecimalRoundTrip(v: nat)
    ensures DecimalValue(NatToDecimal(v)) == v
  {
    if v >= 10 {
      var r := NatToDecimal(v);
      assert r[..|r| - 1] == NatToDecimal(v / 10);
      DecimalRoundTrip(v / 10);
    }
  }

  lemma {:induction false} DecimalValuePositive(s: string)
    requires IsAsciiDigits(s) && s[0] != '0'
    ensures DecimalValue(s) > 0
  {
    if |s| > 1 {
      assert s[..|s| - 1][0] == s[0];
      DecimalValuePositive(s[..|s| - 1]);
    }
  }

  /** Every canonical digit string is the decimal text of its value. */
  lemma {:induction false} DecimalCanonical(s: string)
    requires CanonicalDigits(s)
    ensures NatToDecimal(DecimalValue(s)) == s
  {
    var p, c := s[..|s| - 1], s[|s| - 1];
    var d := c as int - '0' as int;
    if p == [] {
      assert s == [c];
    } else {
      assert p[0] == s[0];
      DecimalValuePositive(p);
      var x := DecimalValue(p);
      var v := x * 10 + d;
      assert v / 10 == x && v % 10 == d;
      DecimalCanonical(p);
      assert s == p + [c];
    }
  }

  predicate CanonicalNumbers(f: RawFields) {
    && CanonicalDigits(f.ppu) && CanonicalDigits(f.nonce) && CanonicalDigits(f.gasPrice)
    && CanonicalDigits(f.gasLimit) && CanonicalDigits(f.dataLength)
  }

  /** CPython's default bound on the digits of an integer read from text
    * (`sys.get_int_max_str_digits()`, in 3.11 and later and in the 3.7 to 3.10
    * security releases that carry it): `json.loads` raises a plain `ValueError`,
    * not `JSONDecodeError`, on an integer with more digits. */
  const MaxIntDigits: nat := 4300

  predicate ShortNumbers(f: RawFields) {
    && |f.ppu| <= MaxIntDigits && |f.nonce| <= MaxIntDigits && |f.gasPrice| <= MaxIntDigits
    && |f.gasLimit| <= MaxIntDigits && |f.dataLength| <= MaxIntDigits
  }

  /** Why `json.loads` of the captured object fails: the `JSONDecodeError` of a
    * leading zero or of a digit outside ASCII, which the scan skips, or the
    * `ValueError` of an over-long integer, which leaves the scan. */
  datatype JsonFailure = Malformed | TooManyDigits

  /** The length of the integer `json`'s scanner reads at the front of `s`: none
    * unless `s` opens with an ASCII digit, a lone `0`, or the run of ASCII digits. */
  function JsonIntegerLength(s: string): (n: nat)
    ensures n <= |s|
    ensures n <= AsciiRun(s)
  {
    if s == [] || !IsAsciiDigit(s[0]) then 0 else if s[0] == '0' then 1 else AsciiRun(s)
  }

  /** How `json.loads` reads one number field of the pattern: the integer at its
    * front is converted first, which raises the `ValueError` when it is too long;
    * no integer there, or characters left after it, give `JSONDecodeError`. */
  function ReadNumber(s: string): Result<nat, JsonFailure> {
    var n := JsonIntegerLength(s);
    if n == 0 then Err(Malformed)
    else if n > MaxIntDigits then Err(TooManyDigits)
    else if n < |s| then Err(Malformed)
    else Ok(DecimalValue(s))
  }

  /** A field reads exactly when it is a short canonical integer, and the digit
    * limit is hit exactly when its leading ASCII run is an over-long integer. */
  lemma ReadNumberSpec(s: string)
    ensures ReadNumber(s).Ok? <==> CanonicalDigits(s) && |s| <= MaxIntDigits
    ensures ReadNumber(s).Ok? ==> ReadNumber(s).value == DecimalValue(s)
    ensures CanonicalDigits(s) && |s| > MaxIntDigits ==> ReadNumber(s) == Err(TooManyDigits)
    ensures !CanonicalDigits(s) && |s| <= MaxIntDigits ==> ReadNumber(s) == Err(Malformed)
    ensures ReadNumber(s) == Err(TooManyDigits) <==>
      s != [] && '1' <= s[0] <= '9' && AsciiRun(s) > MaxIntDigits
  {
    if CanonicalDigits(s) && s[0] != '0' {
      AsciiRunOf(s);
    }
  }

  /** All of an ASCII digit string is its leading ASCII run. */
  lemma AsciiRunOf(s: string)
    requires IsAsciiDigits(s)
    ensures AsciiRun(s) == |s|
  {
  }

  /** `json.loads` of the captured object: the record, or the failure of the first
    * number, in the order of the text, that cannot be read. */
  function DecodeJson(f: RawFields): (r: Result<SelectionRecord, JsonFailure>)
    ensures r.Ok? ==> r.value.hash == f.hash && r.value.sender == f.sender && r.value.receiver == f.receiver
  {
    var ppu :- ReadNumber(f.ppu);
    var nonce :- ReadNumber(f.nonce);
    var gasPrice :- ReadNumber(f.gasPrice);
    var gasLimit :- ReadNumber(f.gasLimit);
    var dataLength :- ReadNumber(f.dataLength);
    Ok(SelectionRecord(f.hash, ppu, nonce, f.sender, gasPrice, gasLimit, f.receiver, dataLength))
  }

  /** The field texts with which the node writes a record. */
  function EncodeFields(r: SelectionRecord): RawFields {
    RawFields(r.hash, NatToDecimal(r.ppu), NatToDecimal(r.nonce), r.sender,
              NatToDecimal(r.gasPrice), NatToDecimal(r.gasLimit), r.receiver, NatToDecimal(r.dataLength))
  }

  /** The hash, sender and receiver of a record have the shapes the log line allows. */
  predicate WellFormedRecord(r: SelectionRecord) {
    |r.hash| == 64 && IsHexText(r.hash) && |r.sender| == 64 && IsHexText(r.sender) && IsHexText(r.receiver)
  }

  /** Every number of the record is written with at most `MaxIntDigits` digits. */
  predicate ShortRecord(r: SelectionRecord) {
    ShortNumbers(EncodeFields(r))
  }

  /** Decoding the texts of a record gives the record back, unless one of its
    * numbers is too long to be read. */
  lemma DecodeEncode(r: SelectionRecord)
    ensures ShortRecord(r) ==> DecodeJson(EncodeFields(r)) == Ok(r)
    ensures !ShortRecord(r) ==> DecodeJson(EncodeFields(r)) == Err(TooManyDigits)
  {
    var f := EncodeFields(r);
    ReadNumberSpec(f.ppu);
    ReadNumberSpec(f.nonce);
    ReadNumberSpec(f.gasPrice);
    ReadNumberSpec(f.gasLimit);
    ReadNumberSpec(f.dataLength);
    DecimalRoundTrip(r.ppu);
    DecimalRoundTrip(r.nonce);
    DecimalRoundTrip(r.gasPrice);
    DecimalRoundTrip(r.gasLimit);
    DecimalRoundTrip(r.dataLength);
  }

  /** Decoding succeeds exactly when every number is canonical and short, and what
    * decodes is re-encoded to the very same texts; leading zeros alone give
    * `JSONDecodeError`, over-long numbers alone the `ValueError`. */
  lemma EncodeDecode(f: RawFields)
    requires WellShaped(f)
    ensures DecodeJson(f).Ok? <==> CanonicalNumbers(f) && ShortNumbers(f)
    ensures DecodeJson(f).Ok? ==> EncodeFields(DecodeJson(f).value) == f
    ensures !CanonicalNumbers(f) && ShortNumbers(f) ==> DecodeJson(f) == Err(Malformed)
    ensures CanonicalNumbers(f) && !ShortNumbers(f) ==> DecodeJson(f) == Err(TooManyDigits)
  {
    ReadNumberSpec(f.ppu);
    ReadNumberSpec(f.nonce);
    ReadNumberSpec(f.gasPrice);
    ReadNumberSpec(f.gasLimit);
    ReadNumberSpec(f.dataLength);
    if CanonicalNumbers(f) && ShortNumbers(f) {
      DecimalCanonical(f.ppu);
      DecimalCanonical(f.nonce);
      DecimalCanonical(f.gasPrice);
      DecimalCanonical(f.gasLimit);
      DecimalCanonical(f.dataLength);
    }
  }

  // ---------------------------------------------------------------------------
  // The whole recogniser

  /** A line's record: the pattern must match and the captured JSON must decode. */
  function ParseSelectionLine(line: string): Option<SelectionRecord> {
    var f :- MatchSelection(line);
    match DecodeJson(f)
    case Ok(r) => Some(r)
    case Err(_) => None
  }

  /** The line matches the pattern, but `json.loads` raises the `ValueError` of an
    * over-long integer. */
  predicate Overflows(line: string) {
    match MatchSelection(line)
    case None => false
    case Some(f) => DecodeJson(f) == Err(TooManyDigits)
  }

  /** The test the scan applies to each log entry: `tx_hash in log_entry`, then the
    * pattern, then `json.loads`, then `tx_data.get("hash") == tx_hash`. */
  predicate Qualifies(line: string, txHash: string) {
    && Contains(line, txHash)
    && match MatchSelection(line)
       case None => false
       case Some(f) =>
         match DecodeJson(f)
         case Err(_) => false
         case Ok(r) => r.hash == txHash
  }

  /** An entry at which the scan stops: it qualifies, or it holds the hash and
    * overflows, so that the `ValueError` escapes the `except json.JSONDecodeError`. */
  predicate StopsScan(line: string, txHash: string) {
    Qualifies(line, txHash) || (Contains(line, txHash) && Overflows(line))
  }

  /** The node's line for a well-formed record is parsed back to that record, unless
    * one of its numbers is too long, when the line overflows instead. */
  lemma ParseLineOfRecord(ordinal: string, gap: string, r: SelectionRecord, newline: bool)
    requires IsDigits(ordinal) && AllSpace(gap) && WellFormedRecord(r)
    ensures ShortRecord(r) ==> ParseSelectionLine(LineText(ordinal, gap, EncodeFields(r), newline)) == Some(r)
    ensures !ShortRecord(r) ==>
      ParseSelectionLine(LineText(ordinal, gap, EncodeFields(r), newline)) == None
      && Overflows(LineText(ordinal, gap, EncodeFields(r), newline))
  {
    MatchSelectionComplete(ordinal, gap, EncodeFields(r), newline);
    DecodeEncode(r);
  }

  /** A line that matches the pattern but has a number with a leading zero is
    * rejected by the decoding step, not by the pattern, with the
    * `JSONDecodeError` the scan skips. */
  lemma LeadingZeroSkipped(ordinal: string, gap: string, f: RawFields, newline: bool)
    requires IsDigits(ordinal) && AllSpace(gap) && WellShaped(f)
    requires f.ppu[0] == '0' && |f.ppu| > 1
    ensures MatchSelection(LineText(ordinal, gap, f, newline)) == Some(f)
    ensures DecodeJson(f) == Err(Malformed)
    ensures ParseSelectionLine(LineText(ordinal, gap, f, newline)) == None
    ensures !StopsScan(LineText(ordinal, gap, f, newline), f.hash)
  {
    MatchSelectionComplete(ordinal, gap, f, newline);
  }

  /** A selection line whose `ppu` opens with an integer of more than
    * `MaxIntDigits` ASCII digits matches the pattern, does not parse, and stops
    * the scan for its own hash with the `ValueError`, whatever decimal digits
    * follow in it or in the later fields. */
  lemma OverlongNumberRaises(ordinal: string, gap: string, f: RawFields, newline: bool)
    requires IsDigits(ordinal) && AllSpace(gap) && WellShaped(f)
    requires '1' <= f.ppu[0] <= '9' && AsciiRun(f.ppu) > MaxIntDigits
    ensures MatchSelection(LineText(ordinal, gap, f, newline)) == Some(f)
    ensures DecodeJson(f) == Err(TooManyDigits)
    ensures ParseSelectionLine(LineText(ordinal, gap, f, newline)) == None
    ensures Overflows(LineText(ordinal, gap, f, newline))
    ensures StopsScan(LineText(ordinal, gap, f, newline), f.hash)
    ensures !Qualifies(LineText(ordinal, gap, f, newline), f.hash)
  {
    var line := LineText(ordinal, gap, f, newline);
    MatchSelectionComplete(ordinal, gap, f, newline);
    HashOccursInLine(ordinal, gap, f, newline);
    assert Contains(line, f.hash);
  }

  /** A selection line whose `ppu` opens with a decimal digit other than an ASCII
    * one (Arabic-Indic `\u0661`, say) matches the pattern, and `json.loads` raises
    * the `JSONDecodeError` the scan skips. */
  lemma ForeignDigitSkipped(ordinal: string, gap: string, f: RawFields, newline: bool)
    requires IsDigits(ordinal) && AllSpace(gap) && WellShaped(f)
    requires !IsAsciiDigit(f.ppu[0])
    ensures MatchSelection(LineText(ordinal, gap, f, newline)) == Some(f)
    ensures DecodeJson(f) == Err(Malformed)
    ensures !StopsScan(LineText(ordinal, gap, f, newline), f.hash)
  {
    MatchSelectionComplete(ordinal, gap, f, newline);
  }

  lemma OccursAtShift(p: string, s: string, sub: string, i: int)
    requires OccursAt(s, sub, i)
    ensures OccursAt(p + s, sub, i + |p|)
  {
    assert (p + s)[i + |p|..i + |p| + |sub|] == s[i..i + |sub|];
  }

  /** The hash field of a selection line occurs in the line. */
  lemma HashOccursInLine(ordinal: string, gap: string, f: RawFields, newline: bool)
    ensures OccursAt(LineText(ordinal, gap, f, newline), f.hash, 20 + |ordinal| + |gap|)
  {
    HashOccursInJson(f, if newline then "\n" else "");
    OccursAfterPrefix(ordinal, gap, JsonText(f) + (if newline then "\n" else ""), f.hash, 9);
  }

  /** What occurs in group 1 occurs in the line, shifted by the text in front. */
  lemma OccursAfterPrefix(ordinal: string, gap: string, j: string, sub: string, i: nat)
    requires OccursAt(j, sub, i)
    ensures OccursAt("selection#" + (ordinal + (":" + (gap + j))), sub, i + 11 + |ordinal| + |gap|)
  {
    OccursAtShift(gap, j, sub, i);
    OccursAtShift(":", gap + j, sub, i + |gap|);
    OccursAtShift(ordinal, ":" + (gap + j), sub, i + |gap| + 1);
    OccursAtShift("selection#", ordinal + (":" + (gap + j)), sub, i + |gap| + 1 + |ordinal|);
  }

  /** The hash value sits right after the nine characters `{"hash":"`. */
  lemma HashOccursInJson(f: RawFields, tail: string)
    ensures OccursAt(JsonText(f) + tail, f.hash, 9)
  {
    var rest := JsonAfterHash(f);
    assert OccursAt(f.hash + (rest + tail), f.hash, 0);
    OccursAtShift("{\"hash\":\"", f.hash + (rest + tail), f.hash, 0);
    assert JsonText(f) + tail == "{\"hash\":\"" + (f.hash + (rest + tail));
  }

  /** The `tx_hash in log_entry` pre-test never changes the outcome: a line
    * qualifies exactly when it parses to a record whose hash is `tx_hash`. */
  lemma QualifiesIffParsedHash(line: string, txHash: string)
    ensures Qualifies(line, txHash) <==>
      ParseSelectionLine(line).Some? && ParseSelectionLine(line).value.hash == txHash
  {
    QualifiesParsed(line, txHash);
    if ParseSelectionLine(line).Some? {
      ParsedHashOccurs(line);
    }
  }

  /** `Qualifies` as the hash test followed by the parse. */
  lemma QualifiesParsed(line: string, txHash: string)
    ensures Qualifies(line, txHash) <==>
      Contains(line, txHash) && ParseSelectionLine(line).Some? && ParseSelectionLine(line).value.hash == txHash
  {
  }

  /** The hash of a parsed record occurs in its line. */
  lemma ParsedHashOccurs(line: string)
    requires ParseSelectionLine(line).Some?
    ensures Contains(line, ParseSelectionLine(line).value.hash)
  {
    var f := MatchSelection(line).value;
    MatchSelectionSound(line);
    var ordinal, gap, newline :| IsDigits(ordinal) && AllSpace(gap) && line == LineText(ordinal, gap, f, newline);
    HashOccursInLine(ordinal, gap, f, newline);
    assert OccursAt(line, f.hash, 20 + |ordinal| + |gap|);
  }
}
