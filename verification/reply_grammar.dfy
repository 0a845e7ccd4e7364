/** The grammar of an SMS survey reply, `joy,achievement,meaningfulness[,free text]`,
    as `parseSmsResponse` in the webhook handler reads it, together with the
    ECMAScript `parseInt` it relies on. */
module ReplyGrammar {
  import opened Base
  import opened Text

  /** The value of `c` as a digit in radices up to 36; 36 when it is no digit at all. */
  function DigitValue(c: char): (d: nat)
    ensures d <= 36
    ensures d < 10 <==> IsDecimalDigit(c)
  {
    if '0' <= c <= '9' then c as int - '0' as int
    else if 'a' <= c <= 'z' then c as int - 'a' as int + 10
    else if 'A' <= c <= 'Z' then c as int - 'A' as int + 10
    else 36
  }

  /** The length of the longest prefix of `s` made of radix-`radix` digits. */
  function DigitRun(s: string, radix: nat): (n: nat)
    ensures n <= |s|
    ensures forall i :: 0 <= i < n ==> DigitValue(s[i]) < radix
    ensures n < |s| ==> DigitValue(s[n]) >= radix
  {
    if |s| > 0 && DigitValue(s[0]) < radix then 1 + DigitRun(s[1..], radix) else 0
  }

  /** The value of a string of radix-`radix` digits, most significant first. */
  function RadixValue(s: string, radix: nat): int {
    if |s| == 0 then 0
    else RadixValue(s[..|s| - 1], radix) * radix + DigitValue(s[|s| - 1])
  }

  /** What `parseInt` has decided before it reads any digit: the sign, the
      radix, and the text where the digits start. */
  datatype Numeral = Numeral(negative: bool, hex: bool, digits: string) {
    function Radix(): nat {
      if hex then 16 else 10
    }
  }

  /** Skips leading whitespace, reads one sign, and switches to hexadecimal
      on a `0x`/`0X` prefix. */
  function Scan(input: string): Numeral {
    var s := TrimStart(input);
    var negative := |s| > 0 && s[0] == '-';
    var unsigned := if |s| > 0 && (s[0] == '+' || s[0] == '-') then s[1..] else s;
    if |unsigned| >= 2 && unsigned[0] == '0' && (unsigned[1] == 'x' || unsigned[1] == 'X')
    then Numeral(negative, true, unsigned[2..])
    else Numeral(negative, false, unsigned)
  }

  /** ECMAScript `parseInt(input)` with no radix argument; None stands for NaN.
      The longest run of digits after the sign and prefix is read; anything
      after that run is ignored, and an empty run is NaN. */
  function ParseInt(input: string): Option<int> {
    var num := Scan(input);
    var n := DigitRun(num.digits, num.Radix());
    var magnitude := if num.hex then RadixValue(num.digits[..n], 16) else RadixValue(num.digits[..n], 10);
    if n == 0 then None else Some(if num.negative then -magnitude else magnitude)
  }

  /** Text that starts with a digit other than zero is read in decimal, unsigned. */
  lemma ScanPlainDecimal(s: string)
    requires |s| > 0 && IsDecimalDigit(s[0]) && s[0] != '0'
    ensures Scan(s) == Numeral(false, false, s)
  {
    assert !IsWhitespace(s[0]);
  }

  /** Why a reply was refused; the webhook only looks at whether it was. */
  datatype ParseError = NotEnoughValues | InvalidScoreFormat | ScoreOutOfRange

  /** An accepted reply. */
  datatype Reply = Reply(joy: int, achievement: int, meaningfulness: int, freeText: Option<string>)

  /** The comma-separated fields of `body`, each trimmed. */
  function Fields(body: string): (fields: seq<string>)
    ensures |fields| == |Split(body, ',')|
  {
    var parts := Split(body, ',');
    seq(|parts|, i requires 0 <= i < |parts| => Trim(parts[i]))
  }

  /** The free text carried by the fields after the third: rejoined with
      commas and trimmed, absent when that leaves nothing. */
  function FreeTextOf(rest: seq<string>): (t: Option<string>)
    ensures t.Some? ==> |t.value| > 0
  {
    var joined := Trim(Join(rest, ','));
    if |joined| == 0 then None else Some(joined)
  }

  /** The decision `parseSmsResponse` takes on the trimmed fields of a reply. */
  function ParseFields(fields: seq<string>): (r: Result<Reply, ParseError>)
    ensures r == Err(NotEnoughValues) <==> |fields| < 3
    ensures r.Ok? ==> InScoreRange(r.value.joy) && InScoreRange(r.value.achievement)
                      && InScoreRange(r.value.meaningfulness)
    ensures r.Ok? ==> r.value.freeText == FreeTextOf(fields[3..])
  {
    if |fields| < 3 then Err(NotEnoughValues)
    else
      var joy := ParseInt(fields[0]);
      var achievement := ParseInt(fields[1]);
      var meaningfulness := ParseInt(fields[2]);
      if joy.None? || achievement.None? || meaningfulness.None? then Err(InvalidScoreFormat)
      else if !InScoreRange(joy.value) || !InScoreRange(achievement.value)
              || !InScoreRange(meaningfulness.value) then Err(ScoreOutOfRange)
      else Ok(Reply(joy.value, achievement.value, meaningfulness.value, FreeTextOf(fields[3..])))
  }

  /** `parseSmsResponse`: at least three fields, the first three read with
      `parseInt` and each in [1,10]; the remaining fields, rejoined with commas
      and trimmed, are the free text, absent when that is empty. */
  function Parse(body: string): (r: Result<Reply, ParseError>)
    ensures r == Err(NotEnoughValues) <==> |Split(body, ',')| < 3
    ensures r.Ok? ==> InScoreRange(r.value.joy) && InScoreRange(r.value.achievement)
                      && InScoreRange(r.value.meaningfulness)
    ensures r.Ok? && r.value.freeText.Some? ==> |r.value.freeText.value| > 0
  {
    ParseFields(Fields(body))
  }

  /** The canonical text of a reply, the shape the survey prompt asks for. */
  function Format(r: Reply): string {
    ShowInt(r.joy) + "," + ShowInt(r.achievement) + "," + ShowInt(r.meaningfulness)
    + (match r.freeText case None => "" case Some(t) => "," + t)
  }

  /** Free text that survives the parser unchanged: non-empty, and every
      comma-separated piece of it trimmed. */
  predicate CanonicalFreeText(t: string) {
    var pieces := Split(t, ',');
    |t| > 0 && forall i :: 0 <= i < |pieces| ==> IsTrimmed(pieces[i])
  }

  /** A reply the parser can produce: scores in range and canonical free text. */
  predicate WellFormed(r: Reply) {
    && InScoreRange(r.joy) && InScoreRange(r.achievement) && InScoreRange(r.meaningfulness)
    && (r.freeText.Some? ==> CanonicalFreeText(r.freeText.value))
  }

  // ---- parseInt facts ----

  lemma {:induction false} DigitRunOfDigits(s: string, rest: string, radix: nat)
    requires forall i :: 0 <= i < |s| ==> DigitValue(s[i]) < radix
    requires |rest| > 0 ==> DigitValue(rest[0]) >= radix
    ensures DigitRun(s + rest, radix) == |s|
  {
    if |s| > 0 {
      assert (s + rest)[1..] == s[1..] + rest;
      DigitRunOfDigits(s[1..], rest, radix);
    } else {
      assert s + rest == rest;
    }
  }

  lemma {:induction false} RadixValueDecimal(s: string)
    requires forall i :: 0 <= i < |s| ==> IsDecimalDigit(s[i])
    ensures RadixValue(s, 10) == DecimalValue(s)
  {
    if |s| > 0 {
      RadixValueDecimal(s[..|s| - 1]);
    }
  }

  /** `parseInt` reads a rendered positive number back, ignoring whatever
      follows it as long as that does not start with a digit: `parseInt("8x") == 8`. */
  lemma ParseIntShowNat(n: nat, rest: string)
    requires n >= 1
    requires |rest| > 0 ==> !IsDecimalDigit(rest[0])
    ensures ParseInt(ShowNat(n) + rest) == Some(n)
  {
    var s := ShowNat(n);
    var input := s + rest;
    ShowNatLeading(n);
    assert input[0] == s[0];
    ScanPlainDecimal(input);
    DigitRunOfDigits(s, rest, 10);
    assert input[..|s|] == s;
    RadixValueDecimal(s);
    DecimalValueShowNat(n);
  }

  // ---- the grammar round trip ----

  /** Digits are never whitespace and never a comma. */
  lemma ShowNatIsField(n: nat)
    ensures IsTrimmed(ShowNat(n))
    ensures ',' !in ShowNat(n)
    ensures Trim(ShowNat(n)) == ShowNat(n)
  {
    var s := ShowNat(n);
    DigitIsPlain(s[0]);
    DigitIsPlain(s[|s| - 1]);
    forall i | 0 <= i < |s|
      ensures s[i] != ','
    {
      DigitIsPlain(s[i]);
    }
    TrimSpec(s);
  }

  lemma DigitIsPlain(c: char)
    requires IsDecimalDigit(c)
    ensures !IsWhitespace(c) && c != ','
  {
  }

  lemma SplitThree(j: string, a: string, rest: string)
    requires ',' !in j && ',' !in a
    ensures Split(j + "," + a + "," + rest, ',') == [j, a] + Split(rest, ',')
  {
    assert j + "," + a + "," + rest == j + [','] + (a + [','] + rest);
    SplitAfterHead(j, a + [','] + rest, ',');
    SplitAfterHead(a, rest, ',');
  }

  /** The text after the second comma of a formatted reply. */
  function FormatTail(m: string, freeText: Option<string>): string {
    match freeText case None => m case Some(t) => m + "," + t
  }

  lemma SplitFormatTail(m: string, freeText: Option<string>)
    requires ',' !in m
    ensures Split(FormatTail(m, freeText), ',')
            == [m] + (if freeText.Some? then Split(freeText.value, ',') else [])
  {
    if freeText.Some? {
      assert m + "," + freeText.value == m + [','] + freeText.value;
      SplitAfterHead(m, freeText.value, ',');
    } else {
      SplitNoSeparator(m, ',');
    }
  }

  /** The comma-separated pieces of a formatted reply: the three rendered
      scores, then the pieces of the free text. */
  lemma SplitFormat(r: Reply)
    requires r.joy >= 1 && r.achievement >= 1 && r.meaningfulness >= 1
    ensures var tail := if r.freeText.Some? then Split(r.freeText.value, ',') else [];
            Split(Format(r), ',') == [ShowNat(r.joy), ShowNat(r.achievement), ShowNat(r.meaningfulness)] + tail
  {
    var j, a, m := ShowNat(r.joy), ShowNat(r.achievement), ShowNat(r.meaningfulness);
    ShowNatIsField(r.joy);
    ShowNatIsField(r.achievement);
    ShowNatIsField(r.meaningfulness);
    var rest := FormatTail(m, r.freeText);
    assert Format(r) == j + "," + a + "," + rest;
    SplitThree(j, a, rest);
    SplitFormatTail(m, r.freeText);
  }

  /** When every piece is already trimmed, the fields are the pieces. */
  lemma FieldsOfTrimmedPieces(body: string)
    requires forall i :: 0 <= i < |Split(body, ',')| ==> IsTrimmed(Split(body, ',')[i])
    ensures Fields(body) == Split(body, ',')
  {
    var parts := Split(body, ',');
    forall i | 0 <= i < |parts|
      ensures Trim(parts[i]) == parts[i]
    {
      TrimSpec(parts[i]);
    }
  }

  /** The fields of a formatted reply with canonical free text. */
  lemma FormatFields(r: Reply)
    requires r.joy >= 1 && r.achievement >= 1 && r.meaningfulness >= 1
    requires r.freeText.Some? ==> CanonicalFreeText(r.freeText.value)
    ensures var tail := if r.freeText.Some? then Split(r.freeText.value, ',') else [];
            Fields(Format(r)) == [ShowNat(r.joy), ShowNat(r.achievement), ShowNat(r.meaningfulness)] + tail
  {
    var tail := if r.freeText.Some? then Split(r.freeText.value, ',') else [];
    var parts := Split(Format(r), ',');
    SplitFormat(r);
    ShowNatIsField(r.joy);
    ShowNatIsField(r.achievement);
    ShowNatIsField(r.meaningfulness);
    forall i | 0 <= i < |parts|
      ensures IsTrimmed(parts[i])
    {
      if i >= 3 {
        assert parts[i] == tail[i - 3];
      }
    }
    FieldsOfTrimmedPieces(Format(r));
  }

  /** Every comma-free trimmed piece joined with commas gives a trimmed string. */
  lemma {:induction false} JoinTrimmed(pieces: seq<string>)
    requires forall i :: 0 <= i < |pieces| ==> IsTrimmed(pieces[i])
    ensures IsTrimmed(Join(pieces, ','))
    ensures |pieces| >= 1 && |pieces[0]| > 0 ==> Join(pieces, ',')[0] == pieces[0][0]
  {
    if |pieces| >= 2 {
      var tailJoin := Join(pieces[1..], ',');
      JoinTrimmed(pieces[1..]);
      var s := Join(pieces, ',');
      assert s == pieces[0] + [','] + tailJoin;
      if |tailJoin| > 0 {
        assert s[|s| - 1] == tailJoin[|tailJoin| - 1];
      }
    }
  }

  /** The decision on fields whose first three read as in-range scores. */
  lemma ParseFieldsAccepts(fields: seq<string>, j: int, a: int, m: int)
    requires |fields| >= 3
    requires ParseInt(fields[0]) == Some(j) && InScoreRange(j)
    requires ParseInt(fields[1]) == Some(a) && InScoreRange(a)
    requires ParseInt(fields[2]) == Some(m) && InScoreRange(m)
    ensures ParseFields(fields) == Ok(Reply(j, a, m, FreeTextOf(fields[3..])))
  {
  }

  lemma ParseIntShowScore(n: nat)
    requires n >= 1
    ensures ParseInt(ShowNat(n)) == Some(n)
  {
    ParseIntShowNat(n, "");
    assert ShowNat(n) + "" == ShowNat(n);
  }

  /** The free text of a well-formed reply is what the parser rebuilds from
      the fields after the third. */
  lemma FreeTextRoundTrip(r: Reply)
    requires WellFormed(r)
    ensures |Fields(Format(r))| >= 3
    ensures FreeTextOf(Fields(Format(r))[3..]) == r.freeText
  {
    var fields := Fields(Format(r));
    FormatFields(r);
    if r.freeText.Some? {
      var t := r.freeText.value;
      assert fields[3..] == Split(t, ',');
      JoinSplit(t, ',');
      JoinTrimmed(Split(t, ','));
      TrimSpec(t);
    } else {
      assert fields[3..] == [];
    }
  }

  /** Formatting a well-formed reply and parsing the text gives the reply back. */
  lemma ParseFormat(r: Reply)
    requires WellFormed(r)
    ensures Parse(Format(r)) == Ok(r)
  {
    var tail := if r.freeText.Some? then Split(r.freeText.value, ',') else [];
    var fields := Fields(Format(r));
    FormatFields(r);
    FreeTextRoundTrip(r);
    assert fields[3..] == tail;
    ScoreFieldsAccepted(r.joy, r.achievement, r.meaningfulness, tail);
  }

  /** Three rendered scores in range, then any fields, are accepted as those
      scores with the free text the further fields carry. */
  lemma ScoreFieldsAccepted(j: int, a: int, m: int, tail: seq<string>)
    requires InScoreRange(j) && InScoreRange(a) && InScoreRange(m)
    ensures ParseFields([ShowNat(j), ShowNat(a), ShowNat(m)] + tail) == Ok(Reply(j, a, m, FreeTextOf(tail)))
  {
    var fields := [ShowNat(j), ShowNat(a), ShowNat(m)] + tail;
    ParseIntShowScore(j);
    ParseIntShowScore(a);
    ParseIntShowScore(m);
    assert fields[0] == ShowNat(j) && fields[1] == ShowNat(a) && fields[2] == ShowNat(m);
    assert fields[3..] == tail;
    ParseFieldsAccepts(fields, j, a, m);
  }

  /** Trimming never introduces a character. */
  lemma TrimKeepsOut(s: string, c: char)
    requires c !in s
    ensures c !in Trim(s)
  {
    var t := TrimStart(s);
    var r := TrimEnd(t);
  }

  /** The fields after the third are trimmed and comma-free. */
  lemma TailFieldsClean(body: string)
    requires |Fields(body)| >= 3
    ensures var pieces := Fields(body)[3..];
            forall i :: 0 <= i < |pieces| ==> IsTrimmed(pieces[i]) && ',' !in pieces[i]
  {
    var parts := Split(body, ',');
    var pieces := Fields(body)[3..];
    forall i | 0 <= i < |pieces|
      ensures IsTrimmed(pieces[i]) && ',' !in pieces[i]
    {
      assert pieces[i] == Trim(parts[i + 3]);
      TrimSpec(parts[i + 3]);
      TrimKeepsOut(parts[i + 3], ',');
    }
  }

  /** Trimmed comma-free pieces join to canonical free text, unless they join to nothing. */
  lemma JoinedPiecesCanonical(pieces: seq<string>)
    requires forall i :: 0 <= i < |pieces| ==> IsTrimmed(pieces[i]) && ',' !in pieces[i]
    ensures Trim(Join(pieces, ',')) == Join(pieces, ',')
    ensures |Join(pieces, ',')| > 0 ==> CanonicalFreeText(Join(pieces, ','))
  {
    JoinTrimmed(pieces);
    TrimSpec(Join(pieces, ','));
    if |Join(pieces, ',')| > 0 {
      assert |pieces| >= 1;
      SplitJoin(pieces, ',');
    }
  }

  /** The free text of an accepted reply is canonical. */
  lemma AcceptedFreeTextCanonical(body: string)
    requires Parse(body).Ok? && Parse(body).value.freeText.Some?
    ensures CanonicalFreeText(Parse(body).value.freeText.value)
  {
    var pieces := Fields(body)[3..];
    TailFieldsClean(body);
    JoinedPiecesCanonical(pieces);
  }

  /** Every accepted reply is well formed, so it is the parse of its own
      canonical text: parsing normalises a reply. */
  lemma ParseNormalises(body: string)
    requires Parse(body).Ok?
    ensures WellFormed(Parse(body).value)
    ensures Parse(Format(Parse(body).value)) == Parse(body)
  {
    if Parse(body).value.freeText.Some? {
      AcceptedFreeTextCanonical(body);
    }
    ParseFormat(Parse(body).value);
  }

  // ---- the replies the product documents ----

  /** Text that starts with a digit other than zero, not followed by another
      digit, is read as that one digit: `parseInt("8x") == 8`. */
  lemma ParseIntDigit(s: string)
    requires |s| >= 1 && '1' <= s[0] <= '9'
    requires |s| >= 2 ==> !IsDecimalDigit(s[1])
    ensures ParseInt(s) == Some(s[0] as int - '0' as int)
  {
    ScanPlainDecimal(s);
    DigitRunOfDigits([s[0]], s[1..], 10);
    assert [s[0]] + s[1..] == s;
    assert s[..1] == [s[0]];
    assert [s[0]][..0] == [];
    assert RadixValue([s[0]], 10) == DigitValue(s[0]);
  }

  /** "8,7,9,Great day!" is read as scores 8, 7, 9 with free text "Great day!". */
  lemma ExampleWithFreeText()
    ensures Parse("8,7,9,Great day!") == Ok(Reply(8, 7, 9, Some("Great day!")))
  {
    var r := Reply(8, 7, 9, Some("Great day!"));
    GreatDayWellFormed(r);
    GreatDayFormat(r);
    ParseFormat(r);
  }

  lemma GreatDayWellFormed(r: Reply)
    requires r == Reply(8, 7, 9, Some("Great day!"))
    ensures WellFormed(r)
  {
    CommaFreeCanonical(r.freeText.value);
  }

  /** Trimmed non-empty text without a comma is canonical free text. */
  lemma CommaFreeCanonical(t: string)
    requires |t| > 0 && ',' !in t && IsTrimmed(t)
    ensures CanonicalFreeText(t)
  {
    SplitNoSeparator(t, ',');
  }

  lemma GreatDayFormat(r: Reply)
    requires r == Reply(8, 7, 9, Some("Great day!"))
    ensures Format(r) == "8,7,9,Great day!"
  {
    assert ShowInt(8) == "8" && ShowInt(7) == "7" && ShowInt(9) == "9";
  }

  /** A score above ten is refused. */
  lemma ExampleOutOfRange()
    ensures Parse("11,5,5") == Err(ScoreOutOfRange)
  {
    assert "11,5,5" == "11" + "," + "5" + "," + "5";
    FieldsOfThree("11", "5", "5");
    ParseIntEleven();
    ParseIntDigit("5");
    ParseFieldsOutOfRange(["11", "5", "5"], 11, 5, 5);
  }

  /** Three readable scores, one of them outside [1,10], are refused as out of range. */
  lemma ParseFieldsOutOfRange(fields: seq<string>, j: int, a: int, m: int)
    requires |fields| >= 3
    requires ParseInt(fields[0]) == Some(j) && ParseInt(fields[1]) == Some(a) && ParseInt(fields[2]) == Some(m)
    requires !(InScoreRange(j) && InScoreRange(a) && InScoreRange(m))
    ensures ParseFields(fields) == Err(ScoreOutOfRange)
  {
  }

  lemma ParseIntEleven()
    ensures ParseInt("11") == Some(11)
  {
    assert ShowNat(11) == "11";
    ParseIntShowScore(11);
  }

  /** Fields without a leading digit are refused. */
  lemma ExampleNotNumeric()
    ensures Parse("a,b,c") == Err(InvalidScoreFormat)
  {
    assert "a,b,c" == "a" + "," + "b" + "," + "c";
    FieldsOfThree("a", "b", "c");
    assert ParseInt("a") == None by {
      assert TrimStart("a") == "a";
      assert DigitRun("a", 10) == 0;
    }
  }

  /** `parseInt` reads only the leading digits, so a score field "8x" counts as 8. */
  lemma ExampleTrailingGarbage()
    ensures ParseInt("8x") == Some(8)
  {
    ParseIntDigit("8x");
  }

  /** Three trimmed comma-free pieces joined with commas are the fields of the result. */
  lemma FieldsOfThree(j: string, a: string, m: string)
    requires ',' !in j && ',' !in a && ',' !in m
    requires IsTrimmed(j) && IsTrimmed(a) && IsTrimmed(m)
    ensures Fields(j + "," + a + "," + m) == [j, a, m]
  {
    var body := j + "," + a + "," + m;
    SplitThree(j, a, m);
    SplitNoSeparator(m, ',');
    var parts := Split(body, ',');
    assert parts == [j, a, m];
    assert IsTrimmed(parts[0]) && IsTrimmed(parts[1]) && IsTrimmed(parts[2]);
    FieldsOfTrimmedPieces(body);
  }

  /** Exactly three fields carry no free text. */
  lemma NoFreeText(fields: seq<string>)
    requires |fields| == 3
    ensures FreeTextOf(fields[3..]) == None
  {
    assert fields[3..] == [];
  }

  /** Fewer than three fields are refused, including the empty reply. */
  lemma ExampleTooFewFields()
    ensures Parse("8,7") == Err(NotEnoughValues)
    ensures Parse("") == Err(NotEnoughValues)
  {
    assert "8,7" == "8" + [','] + "7";
    SplitAfterHead("8", "7", ',');
    SplitNoSeparator("7", ',');
  }

  /** The `0x` prefix switches `parseInt` to hexadecimal, so a score field
      "0xA" counts as 10 and the reply "0xA,5,5" is accepted as 10, 5, 5. */
  lemma ExampleHexadecimal()
    ensures ParseInt("0xA") == Some(10)
    ensures Parse("0xA,5,5") == Ok(Reply(10, 5, 5, None))
  {
    HexFieldPlain();
    ParseIntHexTen();
    FiveField();
    HexReplyPieces();
    ParseThreeAccepted("0xA", "5", "5", 10, 5, 5);
  }

  lemma HexFieldPlain()
    ensures ',' !in "0xA" && IsTrimmed("0xA")
  {
    assert "0xA" == ['0', 'x', 'A'];
  }

  lemma FiveField()
    ensures ',' !in "5" && IsTrimmed("5") && ParseInt("5") == Some(5)
  {
    ParseIntDigit("5");
  }

  lemma HexReplyPieces()
    ensures "0xA,5,5" == "0xA" + "," + "5" + "," + "5"
  {
    assert "0xA" + "," == "0xA,";
    assert "0xA," + "5" == "0xA,5";
    assert "0xA,5" + "," == "0xA,5,";
  }

  /** Three comma-free, trimmed fields holding scores in range are accepted
      as those scores, without free text. */
  lemma ParseThreeAccepted(j: string, a: string, m: string, x: int, y: int, z: int)
    requires ',' !in j && ',' !in a && ',' !in m
    requires IsTrimmed(j) && IsTrimmed(a) && IsTrimmed(m)
    requires ParseInt(j) == Some(x) && ParseInt(a) == Some(y) && ParseInt(m) == Some(z)
    requires InScoreRange(x) && InScoreRange(y) && InScoreRange(z)
    ensures Parse(j + "," + a + "," + m) == Ok(Reply(x, y, z, None))
  {
    FieldsOfThree(j, a, m);
    ParseFieldsAccepts([j, a, m], x, y, z);
    NoFreeText([j, a, m]);
  }

  lemma ParseIntHexTen()
    ensures ParseInt("0xA") == Some(10)
  {
    assert "0xA" == "0x" + "A";
    ScanHexPrefix("A");
    assert DigitRun("A", 16) == 1;
    assert "A"[..1] == "A";
    assert RadixValue("A", 16) == 10;
  }

  /** Text opening with `0x` is read in hexadecimal, unsigned. */
  lemma ScanHexPrefix(rest: string)
    ensures Scan("0x" + rest) == Numeral(false, true, rest)
  {
    var s := "0x" + rest;
    assert s[0] == '0' && s[1] == 'x' && !IsWhitespace(s[0]);
    assert s[2..] == rest;
  }
}
