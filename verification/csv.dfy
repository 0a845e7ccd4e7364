/** Comma-separated records as section 2 of RFC 4180 describes them: fields
    separated by commas, a field optionally enclosed in double quotes, and a
    double quote inside an enclosed field written as two double quotes. The
    module gives the writer's side (`Render`, `Line`) and a reader
    (`ReadRecord`) it is proved against. */
module Csv {
  import opened Base

  /** `text.replace(/"/g, '""')`: every double quote doubled. */
  function DoubleQuotes(x: string): (y: string)
    ensures |y| >= |x|
    ensures '"' !in x ==> y == x
  {
    if |x| == 0 then ""
    else (if x[0] == '"' then "\"\"" else [x[0]]) + DoubleQuotes(x[1..])
  }

  /** Reads the inside of an enclosed field, from just after its opening
      quote up to its closing one: a doubled quote stands for one quote.
      Yields the field's text and what follows the closing quote. */
  function ReadQuoted(y: string): (r: Option<(string, string)>)
    ensures r.Some? ==> |r.value.1| < |y|
  {
    if |y| == 0 then None
    else if y[0] == '"' then
      if |y| >= 2 && y[1] == '"' then
        match ReadQuoted(y[2..])
        case None => None
        case Some((v, rest)) => Some(("\"" + v, rest))
      else Some(("", y[1..]))
    else
      match ReadQuoted(y[1..])
      case None => None
      case Some((v, rest)) => Some(([y[0]] + v, rest))
  }

  /** Doubling the quotes of a text and closing the field reads back as
      exactly that text, leaving the rest of the line untouched. */
  lemma {:induction false} ReadQuotedDoubled(x: string, rest: string)
    requires |rest| == 0 || rest[0] != '"'
    ensures ReadQuoted(DoubleQuotes(x) + "\"" + rest) == Some((x, rest))
  {
    if |x| == 0 {
      assert DoubleQuotes(x) + "\"" + rest == "\"" + rest;
      ReadQuotedClose(rest);
    } else {
      ReadQuotedDoubled(x[1..], rest);
      if x[0] == '"' {
        ReadQuotedEscape(x, rest);
      } else {
        ReadQuotedPlain(x, rest);
      }
    }
  }

  /** The closing quote, when no second quote follows it. */
  lemma ReadQuotedClose(rest: string)
    requires |rest| == 0 || rest[0] != '"'
    ensures ReadQuoted("\"" + rest) == Some(("", rest))
  {
    assert ("\"" + rest)[1..] == rest;
  }

  /** A text opening with a quote: the doubled quote reads as one quote,
      then the rest of the text as it reads on its own. */
  lemma ReadQuotedEscape(x: string, rest: string)
    requires |x| > 0 && x[0] == '"'
    requires ReadQuoted(DoubleQuotes(x[1..]) + "\"" + rest) == Some((x[1..], rest))
    ensures ReadQuoted(DoubleQuotes(x) + "\"" + rest) == Some((x, rest))
  {
    var y := DoubleQuotes(x[1..]) + "\"" + rest;
    assert DoubleQuotes(x) == "\"\"" + DoubleQuotes(x[1..]);
    assert DoubleQuotes(x) + "\"" + rest == "\"\"" + y;
    assert ("\"\"" + y)[2..] == y;
    assert x == "\"" + x[1..];
  }

  /** A text opening with any other character: that character is copied,
      then the rest of the text reads as it does on its own. */
  lemma ReadQuotedPlain(x: string, rest: string)
    requires |x| > 0 && x[0] != '"'
    requires ReadQuoted(DoubleQuotes(x[1..]) + "\"" + rest) == Some((x[1..], rest))
    ensures ReadQuoted(DoubleQuotes(x) + "\"" + rest) == Some((x, rest))
  {
    var y := DoubleQuotes(x[1..]) + "\"" + rest;
    assert DoubleQuotes(x) == [x[0]] + DoubleQuotes(x[1..]);
    assert DoubleQuotes(x) + "\"" + rest == [x[0]] + y;
    assert ([x[0]] + y)[1..] == y;
    assert x == [x[0]] + x[1..];
  }

  /** The position of the first `c` in `s`, or `|s|` when there is none. */
  function FirstIndex(s: string, c: char): (k: nat)
    ensures k <= |s|
    ensures k < |s| ==> s[k] == c
    ensures forall i :: 0 <= i < k ==> s[i] != c
  {
    if |s| == 0 then 0
    else if s[0] == c then 0
    else 1 + FirstIndex(s[1..], c)
  }

  /** One field as it is written out: enclosed in quotes with its quotes
      doubled, or bare. */
  datatype Field = Quoted(text: string) | Bare(text: string)

  function Render(f: Field): string {
    match f
    case Quoted(t) => "\"" + DoubleQuotes(t) + "\""
    case Bare(t) => t
  }

  /** A bare field reads back as itself when it holds no comma and does not
      open with a quote. */
  predicate Readable(f: Field) {
    f.Bare? ==> ',' !in f.text && (|f.text| == 0 || f.text[0] != '"')
  }

  /** The fields of a record, written with one comma between neighbours. */
  function Line(fs: seq<Field>): string
    requires |fs| >= 1
  {
    if |fs| == 1 then Render(fs[0]) else Render(fs[0]) + "," + Line(fs[1..])
  }

  function Texts(fs: seq<Field>): (ts: seq<string>)
    ensures |ts| == |fs|
    ensures forall i :: 0 <= i < |fs| ==> ts[i] == fs[i].text
  {
    if |fs| == 0 then [] else [fs[0].text] + Texts(fs[1..])
  }

  /** A field's text put before the fields read from the rest of the line. */
  function Prepend(v: string, rest: Option<seq<string>>): (r: Option<seq<string>>)
    ensures r.Some? <==> rest.Some?
    ensures r.Some? ==> r.value == [v] + rest.value
  {
    match rest
    case None => None
    case Some(vs) => Some([v] + vs)
  }

  /** Reads one line into its fields' texts, or fails when an enclosed field
      is not closed or is followed by anything but a comma or the line's end. */
  function ReadRecord(line: string): Option<seq<string>>
    decreases |line|
  {
    if |line| > 0 && line[0] == '"' then
      match ReadQuoted(line[1..])
      case None => None
      case Some((v, rest)) =>
        if |rest| == 0 then Some([v])
        else if rest[0] != ',' then None
        else Prepend(v, ReadRecord(rest[1..]))
    else
      var k := FirstIndex(line, ',');
      if k == |line| then Some([line])
      else Prepend(line[..k], ReadRecord(line[k + 1..]))
  }

  /** An enclosed field followed by the line's end or a comma reads back as
      its text, followed by whatever the rest of the line reads as. */
  lemma ReadQuotedField(t: string, tail: string)
    requires |tail| == 0 || tail[0] == ','
    ensures var line := "\"" + DoubleQuotes(t) + "\"" + tail;
            && (|tail| == 0 ==> ReadRecord(line) == Some([t]))
            && (|tail| > 0 ==> ReadRecord(line) == Prepend(t, ReadRecord(tail[1..])))
  {
    var line := "\"" + DoubleQuotes(t) + "\"" + tail;
    ReadQuotedDoubled(t, tail);
    assert line[0] == '"';
    assert line[1..] == DoubleQuotes(t) + "\"" + tail;
  }

  /** A bare field without commas, not opening with a quote, followed by the
      line's end or a comma, reads back as itself. */
  lemma ReadBareField(t: string, tail: string)
    requires ',' !in t && (|t| == 0 || t[0] != '"')
    requires |tail| == 0 || tail[0] == ','
    ensures |tail| == 0 ==> ReadRecord(t + tail) == Some([t])
    ensures |tail| > 0 ==> ReadRecord(t + tail) == Prepend(t, ReadRecord(tail[1..]))
  {
    var line := t + tail;
    forall i | 0 <= i < |t|
      ensures line[i] != ','
    {
      assert line[i] == t[i];
    }
    if |tail| == 0 {
      assert line == t;
      FirstIndexAt(line, ',', |t|);
    } else {
      assert line[|t|] == ',';
      FirstIndexAt(line, ',', |t|);
      assert line[..|t|] == t;
      assert line[|t| + 1..] == tail[1..];
    }
  }

  /** The first `c` sits at `k` when none comes before it and `k` holds one
      or is the end. */
  lemma FirstIndexAt(s: string, c: char, k: nat)
    requires k <= |s|
    requires forall i :: 0 <= i < k ==> s[i] != c
    requires k < |s| ==> s[k] == c
    ensures FirstIndex(s, c) == k
  {
  }

  lemma ReadField(f: Field, tail: string)
    requires Readable(f)
    requires |tail| == 0 || tail[0] == ','
    ensures |tail| == 0 ==> ReadRecord(Render(f) + tail) == Some([f.text])
    ensures |tail| > 0 ==> ReadRecord(Render(f) + tail) == Prepend(f.text, ReadRecord(tail[1..]))
  {
    match f
    case Quoted(t) => ReadQuotedField(t, tail);
    case Bare(t) => ReadBareField(t, tail);
  }

  /** Reading a written line gives back every field's text, in order. */
  lemma {:induction false} ReadLine(fs: seq<Field>)
    requires |fs| >= 1
    requires forall i :: 0 <= i < |fs| ==> Readable(fs[i])
    ensures ReadRecord(Line(fs)) == Some(Texts(fs))
  {
    if |fs| == 1 {
      ReadField(fs[0], "");
      assert Line(fs) == Render(fs[0]) + "";
      assert Texts(fs) == [fs[0].text];
    } else {
      var tail := "," + Line(fs[1..]);
      ReadLine(fs[1..]);
      assert tail[1..] == Line(fs[1..]);
      ReadField(fs[0], tail);
      assert Line(fs) == Render(fs[0]) + tail;
      assert Texts(fs) == [fs[0].text] + Texts(fs[1..]);
    }
  }

  /** A character that no field renders to, other than the comma, is
      absent from the line. */
  lemma {:induction false} LineAvoids(fs: seq<Field>, c: char)
    requires |fs| >= 1 && c != ','
    requires forall i :: 0 <= i < |fs| ==> c !in Render(fs[i])
    ensures c !in Line(fs)
  {
    if |fs| > 1 {
      LineAvoids(fs[1..], c);
    }
  }

  /** Fields that render alike make the same line. */
  lemma {:induction false} LineSameRender(fs: seq<Field>, gs: seq<Field>)
    requires |fs| == |gs| >= 1
    requires forall i :: 0 <= i < |fs| ==> Render(fs[i]) == Render(gs[i])
    ensures Line(fs) == Line(gs)
  {
    if |fs| > 1 {
      LineSameRender(fs[1..], gs[1..]);
    }
  }

  /** A bare field and a comma before the rest of a line. */
  lemma ReadBareThen(t: string, rest: string)
    requires ',' !in t && (|t| == 0 || t[0] != '"')
    ensures ReadRecord(t + "," + rest) == Prepend(t, ReadRecord(rest))
  {
    var tail := "," + rest;
    assert t + "," + rest == t + tail;
    assert tail[1..] == rest;
    ReadBareField(t, tail);
  }

  /** The first two fields of a line of three or more. */
  lemma LineHeads(fs: seq<Field>)
    requires |fs| >= 3
    ensures Line(fs) == Render(fs[0]) + "," + Line(fs[1..])
    ensures Line(fs[1..]) == Render(fs[1]) + "," + Line(fs[2..])
  {
    assert fs[1..][1..] == fs[2..];
  }

  /** A line of bare fields, none holding a comma, a line break or an
      opening quote, reads back as those fields and holds no line break. */
  lemma BareLineReads(ts: seq<string>)
    requires |ts| >= 1
    requires forall i :: 0 <= i < |ts| ==> ',' !in ts[i] && '\n' !in ts[i] && (|ts[i]| == 0 || ts[i][0] != '"')
    ensures ReadRecord(Line(BareFields(ts))) == Some(ts)
    ensures '\n' !in Line(BareFields(ts))
  {
    var fs := BareFields(ts);
    ReadLine(fs);
    LineAvoids(fs, '\n');
    assert Texts(fs) == ts;
  }

  function BareFields(ts: seq<string>): (fs: seq<Field>)
    ensures |fs| == |ts|
    ensures forall i :: 0 <= i < |ts| ==> fs[i] == Bare(ts[i])
  {
    if |ts| == 0 then [] else [Bare(ts[0])] + BareFields(ts[1..])
  }
}
