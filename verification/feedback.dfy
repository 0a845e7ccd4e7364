/** The feedback text sent after a daily check-in: the three scores, their
    mean to one decimal, the rolling weekly totals, and one of four
    motivational lines chosen by the mean. The webhook handler and the SMS
    service each carry a copy of the composer; the tier choice is textually
    the same in both, the templates differ in two headings and in how a
    missing weekly total is printed. */
module Feedback {
  import opened Base
  import opened Text
  import opened Database

  function Abs(x: int): nat {
    if x < 0 then -x else x
  }

  // ---- the displayed mean ----

  /** `(total / 3).toFixed(1)` for a non-negative total, in tenths: the
      number of tenths closest to total/3. */
  function MeanTenths(total: nat): (n: nat)
    ensures Abs(3 * n - 10 * total) <= 1
  {
    (10 * total + 1) / 3
  }

  /** No other number of tenths is as close to total/3, so the rounding rule
      for ties never applies and `toFixed(1)` yields exactly `MeanTenths`. */
  lemma MeanTenthsNearest(total: nat, m: int)
    ensures m != MeanTenths(total) ==> Abs(3 * m - 10 * total) > Abs(3 * MeanTenths(total) - 10 * total)
  {
    var n := MeanTenths(total);
    if m != n {
      assert 3 * m - 10 * total == 3 * (m - n) + (3 * n - 10 * total);
      assert Abs(3 * (m - n)) >= 3;
    }
  }

  /** A number of tenths written with one decimal: "7.7", "10.0", "0.3". */
  function ShowTenths(n: nat): string {
    ShowNat(n / 10) + "." + [DigitChar(n % 10)]
  }

  /** The mean of three scores with the given total as `toFixed(1)` prints it:
      the sign, then the magnitude rounded to tenths. */
  function AverageText(total: int): string {
    if total < 0 then "-" + ShowTenths(MeanTenths(-total)) else ShowTenths(MeanTenths(total))
  }

  /** The value of `AverageText(total)`, in tenths. */
  function SignedMeanTenths(total: int): int {
    if total < 0 then -(MeanTenths(-total) as int) else MeanTenths(total)
  }

  /** `parseFloat` on text of the shape `toFixed(1)` produces (an optional
      minus sign, decimal digits, a point, one digit), in tenths; None for any
      other text, which `parseFloat` would read as NaN or as a number with
      another precision. */
  function ReadTenths(s: string): (v: Option<int>)
    ensures v.Some? ==> |s| >= 3 && s[|s| - 2] == '.'
  {
    var negative := |s| > 0 && s[0] == '-';
    var u := if negative then s[1..] else s;
    if |u| >= 3 && u[|u| - 2] == '.' && IsDecimalDigit(u[|u| - 1])
       && forall i :: 0 <= i < |u| - 2 ==> IsDecimalDigit(u[i])
    then
      var magnitude := DecimalValue(u[..|u| - 2]) * 10 + (u[|u| - 1] as int - '0' as int);
      Some(if negative then -magnitude else magnitude)
    else None
  }

  /** Reading a one-decimal rendering gives back its number of tenths. */
  lemma ReadShowTenths(n: nat)
    ensures ReadTenths(ShowTenths(n)) == Some(n)
  {
    var whole := ShowNat(n / 10);
    var s := ShowTenths(n);
    assert s[0] == whole[0];
    assert s[..|s| - 2] == whole;
    assert s[|s| - 2] == '.';
    DecimalValueShowNat(n / 10);
  }

  lemma ReadNegatedTenths(n: nat)
    ensures ReadTenths("-" + ShowTenths(n)) == Some(-(n as int))
  {
    var s := "-" + ShowTenths(n);
    assert s[1..] == ShowTenths(n);
    ReadShowTenths(n);
  }

  /** Reading the displayed mean back, as `getMotivationalMessage` does,
      gives the rounded mean. */
  lemma ReadAverageText(total: int)
    ensures ReadTenths(AverageText(total)) == Some(SignedMeanTenths(total))
  {
    if total < 0 {
      ReadNegatedTenths(MeanTenths(-total));
    } else {
      ReadShowTenths(MeanTenths(total));
    }
  }

  // ---- the four motivational lines ----

  datatype Motivation = Thriving | OnTrack | KeepGoing | ToughDay {
    /** The emoji each line opens with. */
    function Emoji(): char {
      match this
      case Thriving => '\U{1F389}'
      case OnTrack => '\U{1F44D}'
      case KeepGoing => '\U{1F4AA}'
      case ToughDay => '\U{1F917}'
    }

    /** The fixed line each tier prints. */
    function Message(): (line: string)
      ensures |line| > 0 && line[0] == Emoji()
    {
      [Emoji()] + match this
        case Thriving => " Amazing! You're thriving! Keep up the great work!"
        case OnTrack => " Good progress! You're on the right track!"
        case KeepGoing => " Keep going! Every day is a chance to grow!"
        case ToughDay => " Remember, it's okay to have tough days. Tomorrow is a new opportunity!"
    }
  }

  /** The tier for a mean given in tenths: at least 8, at least 6, at least 4, below. */
  function TierOfTenths(v: int): Motivation {
    if v >= 80 then Thriving
    else if v >= 60 then OnTrack
    else if v >= 40 then KeepGoing
    else ToughDay
  }

  /** `getMotivationalMessage(average)`: the displayed mean is read back with
      `parseFloat` and compared with 8, 6 and 4; NaN fails every comparison
      and lands in the last tier. The webhook handler and the SMS service
      carry textually identical copies of this choice. */
  function MotivationOf(average: string): Motivation {
    match ReadTenths(average)
    case None => ToughDay
    case Some(v) => TierOfTenths(v)
  }

  /** The tier stated over the integer total of the three scores. */
  function TierOfTotal(total: int): Motivation {
    if total >= 24 then Thriving
    else if total >= 18 then OnTrack
    else if total >= 12 then KeepGoing
    else ToughDay
  }

  /** Rounding the mean to one decimal never moves it across a tier boundary:
      the tier of the displayed mean is the tier of the total with thresholds
      24, 18 and 12. */
  lemma TierByTotal(total: int)
    ensures MotivationOf(AverageText(total)) == TierOfTotal(total)
  {
    ReadAverageText(total);
    if total >= 0 {
      var n := MeanTenths(total);
      assert n >= 80 <==> total >= 24;
      assert n >= 60 <==> total >= 18;
      assert n >= 40 <==> total >= 12;
    }
  }

  /** The four lines are pairwise different, so the printed line identifies the tier. */
  lemma MessageInjective(a: Motivation, b: Motivation)
    ensures a.Message() == b.Message() <==> a == b
  {
    if a.Message() == b.Message() {
      assert a.Message()[0] == b.Message()[0];
    }
  }

  // ---- the templates ----

  /** The lines every feedback message opens with, with the two headings and
      the three already-rendered weekly totals supplied by the template. */
  function FeedbackLines(heading: string, weeklyHeading: string, joy: int, achievement: int,
                         meaningfulness: int, weekJoy: string, weekAchievement: string,
                         weekMeaningfulness: string): seq<string>
  {
    [ heading,
      "Joy: " + ShowInt(joy) + "/10",
      "Achievement: " + ShowInt(achievement) + "/10",
      "Meaningfulness: " + ShowInt(meaningfulness) + "/10",
      "Average: " + AverageText(joy + achievement + meaningfulness) + "/10",
      "",
      weeklyHeading,
      "Joy: " + weekJoy,
      "Achievement: " + weekAchievement,
      "Meaningfulness: " + weekMeaningfulness,
      "" ]
  }

  /** The message: the opening lines, then the motivational line chosen by
      the displayed mean. */
  function Compose(lines: seq<string>, joy: int, achievement: int, meaningfulness: int): string {
    Join(lines, '\n') + "\n" + MotivationOf(AverageText(joy + achievement + meaningfulness)).Message()
  }

  /** `weeklyTotals?.x || 0`: a NULL sum, like a zero one, prints as 0. */
  function ShowOrZero(sum: Option<int>): string {
    ShowInt(sum.GetOr(0))
  }

  /** A template literal prints a NULL sum as "null". */
  function ShowSum(sum: Option<int>): string {
    match sum
    case None => "null"
    case Some(v) => ShowInt(v)
  }

  /** `generateFeedbackMessage` of the webhook handler. */
  function WebhookFeedback(joy: int, achievement: int, meaningfulness: int, totals: WeeklyTotals): string {
    Compose(FeedbackLines("\U{1F4CA} Your Scores:", "\U{1F4C8} Weekly Totals:", joy, achievement, meaningfulness,
                          ShowOrZero(totals.joy), ShowOrZero(totals.achievement), ShowOrZero(totals.meaningfulness)),
            joy, achievement, meaningfulness)
  }

  /** `generateFeedbackMessage` of the SMS service. */
  function ServiceFeedback(joy: int, achievement: int, meaningfulness: int, totals: WeeklyTotals): string {
    Compose(FeedbackLines("\U{1F4CA} Your Daily Scores:", "\U{1F4C8} Weekly Progress:", joy, achievement, meaningfulness,
                          ShowSum(totals.joy), ShowSum(totals.achievement), ShowSum(totals.meaningfulness)),
            joy, achievement, meaningfulness)
  }

  lemma ShowNatNoNewline(n: nat)
    ensures '\n' !in ShowNat(n)
  {
    var s := ShowNat(n);
    forall i | 0 <= i < |s|
      ensures s[i] != '\n'
    {
      assert IsDecimalDigit(s[i]);
    }
  }

  lemma ShowIntNoNewline(n: int)
    ensures '\n' !in ShowInt(n)
  {
    ShowNatNoNewline(if n < 0 then -n else n);
  }

  lemma AverageTextNoNewline(total: int)
    ensures '\n' !in AverageText(total)
  {
    var n := if total < 0 then MeanTenths(-total) else MeanTenths(total);
    ShowNatNoNewline(n / 10);
  }

  lemma ShowSumNoNewline(sum: Option<int>)
    ensures '\n' !in ShowSum(sum)
  {
    if sum.Some? {
      ShowIntNoNewline(sum.value);
    }
  }

  lemma ConcatNoNewline(a: string, b: string, c: string)
    requires '\n' !in a && '\n' !in b && '\n' !in c
    ensures '\n' !in a + b + c
  {
  }

  /** The opening lines carry no line break of their own, as long as the
      headings and rendered totals carry none. */
  lemma FeedbackLinesClean(heading: string, weeklyHeading: string, joy: int, achievement: int,
                           meaningfulness: int, weekJoy: string, weekAchievement: string,
                           weekMeaningfulness: string)
    requires '\n' !in heading && '\n' !in weeklyHeading
    requires '\n' !in weekJoy && '\n' !in weekAchievement && '\n' !in weekMeaningfulness
    ensures var lines := FeedbackLines(heading, weeklyHeading, joy, achievement, meaningfulness,
                                       weekJoy, weekAchievement, weekMeaningfulness);
            forall i :: 0 <= i < |lines| ==> '\n' !in lines[i]
  {
    var total := joy + achievement + meaningfulness;
    ShowIntNoNewline(joy);
    ShowIntNoNewline(achievement);
    ShowIntNoNewline(meaningfulness);
    AverageTextNoNewline(total);
    ConcatNoNewline("Joy: ", ShowInt(joy), "/10");
    ConcatNoNewline("Achievement: ", ShowInt(achievement), "/10");
    ConcatNoNewline("Meaningfulness: ", ShowInt(meaningfulness), "/10");
    ConcatNoNewline("Average: ", AverageText(total), "/10");
    ConcatNoNewline("Joy: ", weekJoy, "");
    ConcatNoNewline("Achievement: ", weekAchievement, "");
    ConcatNoNewline("Meaningfulness: ", weekMeaningfulness, "");
    assert "Joy: " + weekJoy + "" == "Joy: " + weekJoy;
    assert "Achievement: " + weekAchievement + "" == "Achievement: " + weekAchievement;
    assert "Meaningfulness: " + weekMeaningfulness + "" == "Meaningfulness: " + weekMeaningfulness;
  }

  /** Splitting a composed message at line breaks gives back its opening
      lines, and the rest rejoins to the motivational line. */
  lemma ComposeRoundTrip(lines: seq<string>, joy: int, achievement: int, meaningfulness: int)
    requires |lines| >= 1
    requires forall i :: 0 <= i < |lines| ==> '\n' !in lines[i]
    ensures var parts := Split(Compose(lines, joy, achievement, meaningfulness), '\n');
            parts == lines + Split(TierOfTotal(joy + achievement + meaningfulness).Message(), '\n')
  {
    var message := MotivationOf(AverageText(joy + achievement + meaningfulness)).Message();
    assert Compose(lines, joy, achievement, meaningfulness) == Join(lines, '\n') + ['\n'] + message;
    SplitAppend(Join(lines, '\n'), message, '\n');
    SplitJoin(lines, '\n');
    TierByTotal(joy + achievement + meaningfulness);
  }

  lemma HeadingsSingleLine()
    ensures '\n' !in "\U{1F4CA} Your Scores:" && '\n' !in "\U{1F4C8} Weekly Totals:"
    ensures '\n' !in "\U{1F4CA} Your Daily Scores:" && '\n' !in "\U{1F4C8} Weekly Progress:"
  {
  }

  /** The webhook's message splits at its line breaks into the opening lines
      (each score as n/10, the mean to one decimal, each weekly total with
      NULL shown as 0) followed by the tier line chosen by the total. */
  lemma WebhookFeedbackLines(joy: int, achievement: int, meaningfulness: int, totals: WeeklyTotals)
    ensures Split(WebhookFeedback(joy, achievement, meaningfulness, totals), '\n')
            == FeedbackLines("\U{1F4CA} Your Scores:", "\U{1F4C8} Weekly Totals:", joy, achievement, meaningfulness,
                             ShowInt(totals.joy.GetOr(0)), ShowInt(totals.achievement.GetOr(0)),
                             ShowInt(totals.meaningfulness.GetOr(0)))
               + Split(TierOfTotal(joy + achievement + meaningfulness).Message(), '\n')
  {
    var opening := FeedbackLines("\U{1F4CA} Your Scores:", "\U{1F4C8} Weekly Totals:", joy, achievement, meaningfulness,
                                 ShowOrZero(totals.joy), ShowOrZero(totals.achievement), ShowOrZero(totals.meaningfulness));
    HeadingsSingleLine();
    ShowIntNoNewline(totals.joy.GetOr(0));
    ShowIntNoNewline(totals.achievement.GetOr(0));
    ShowIntNoNewline(totals.meaningfulness.GetOr(0));
    FeedbackLinesClean("\U{1F4CA} Your Scores:", "\U{1F4C8} Weekly Totals:", joy, achievement, meaningfulness,
                       ShowOrZero(totals.joy), ShowOrZero(totals.achievement), ShowOrZero(totals.meaningfulness));
    ComposeRoundTrip(opening, joy, achievement, meaningfulness);
  }

  /** The service's message splits into the same kind of opening lines, with
      its own headings and each weekly total printed as it is, NULL as "null",
      followed by the tier line chosen by the total. */
  lemma ServiceFeedbackLines(joy: int, achievement: int, meaningfulness: int, totals: WeeklyTotals)
    ensures Split(ServiceFeedback(joy, achievement, meaningfulness, totals), '\n')
            == FeedbackLines("\U{1F4CA} Your Daily Scores:", "\U{1F4C8} Weekly Progress:", joy, achievement,
                             meaningfulness, ShowSum(totals.joy), ShowSum(totals.achievement),
                             ShowSum(totals.meaningfulness))
               + Split(TierOfTotal(joy + achievement + meaningfulness).Message(), '\n')
  {
    var opening := FeedbackLines("\U{1F4CA} Your Daily Scores:", "\U{1F4C8} Weekly Progress:", joy, achievement,
                                 meaningfulness, ShowSum(totals.joy), ShowSum(totals.achievement),
                                 ShowSum(totals.meaningfulness));
    HeadingsSingleLine();
    ShowSumNoNewline(totals.joy);
    ShowSumNoNewline(totals.achievement);
    ShowSumNoNewline(totals.meaningfulness);
    FeedbackLinesClean("\U{1F4CA} Your Daily Scores:", "\U{1F4C8} Weekly Progress:", joy, achievement,
                       meaningfulness, ShowSum(totals.joy), ShowSum(totals.achievement),
                       ShowSum(totals.meaningfulness));
    ComposeRoundTrip(opening, joy, achievement, meaningfulness);
  }

  /** Opening lines that differ only in their headings differ only in lines 0 and 6. */
  lemma HeadingsOnlyDiffer(h1: string, w1: string, h2: string, w2: string, joy: int, achievement: int,
                           meaningfulness: int, tj: string, ta: string, tm: string, rest: seq<string>)
    ensures var a := FeedbackLines(h1, w1, joy, achievement, meaningfulness, tj, ta, tm) + rest;
            var b := FeedbackLines(h2, w2, joy, achievement, meaningfulness, tj, ta, tm) + rest;
            |a| == |b| && forall i :: 0 <= i < |a| && i != 0 && i != 6 ==> a[i] == b[i]
  {
  }

  /** When every weekly total is present, the two composers print the same
      text apart from the two headings: lines 0 and 6. */
  lemma TemplatesAgree(joy: int, achievement: int, meaningfulness: int, totals: WeeklyTotals)
    requires totals.joy.Some? && totals.achievement.Some? && totals.meaningfulness.Some?
    ensures var w := Split(WebhookFeedback(joy, achievement, meaningfulness, totals), '\n');
            var s := Split(ServiceFeedback(joy, achievement, meaningfulness, totals), '\n');
            |w| == |s| && forall i :: 0 <= i < |w| && i != 0 && i != 6 ==> w[i] == s[i]
  {
    WebhookFeedbackLines(joy, achievement, meaningfulness, totals);
    ServiceFeedbackLines(joy, achievement, meaningfulness, totals);
    assert ShowInt(totals.joy.GetOr(0)) == ShowSum(totals.joy);
    assert ShowInt(totals.achievement.GetOr(0)) == ShowSum(totals.achievement);
    assert ShowInt(totals.meaningfulness.GetOr(0)) == ShowSum(totals.meaningfulness);
    HeadingsOnlyDiffer("\U{1F4CA} Your Scores:", "\U{1F4C8} Weekly Totals:",
                       "\U{1F4CA} Your Daily Scores:", "\U{1F4C8} Weekly Progress:",
                       joy, achievement, meaningfulness, ShowSum(totals.joy), ShowSum(totals.achievement),
                       ShowSum(totals.meaningfulness),
                       Split(TierOfTotal(joy + achievement + meaningfulness).Message(), '\n'));
  }

  // ---- the tier boundaries ----

  /** A total of 24 shows "8.0" and is the first total in the top tier. */
  lemma ExampleBoundaryEight()
    ensures AverageText(24) == "8.0" && TierOfTotal(24) == Thriving
    ensures AverageText(23) == "7.7" && TierOfTotal(23) == OnTrack
  {
    assert ShowNat(8) == "8" && ShowNat(7) == "7";
  }

  /** A total of 12 shows "4.0" and is in the third tier; 11 shows "3.7" and is not. */
  lemma ExampleBoundaryFour()
    ensures AverageText(12) == "4.0" && TierOfTotal(12) == KeepGoing
    ensures AverageText(11) == "3.7" && TierOfTotal(11) == ToughDay
  {
    assert ShowNat(4) == "4" && ShowNat(3) == "3";
  }
}
