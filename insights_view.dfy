/**
 * The frontend `Insights` card list: the icon chosen by an insight's type, and
 * `formatMessage`, which splits a message on `**` and sets every odd-numbered part in bold.
 */
module InsightsView {
  import opened Wrappers
  import opened Text
  import opened Calendar
  import opened TransactionModel
  import opened InsightsController

  /** The bold marker of the messages. */
  const Marker: string := "**"

  /** A rendered part of a message: plain text, or a `<strong>` element. */
  datatype Segment = Plain(text: string) | Bold(text: string)

  datatype Icon = ExclamationTriangle | InfoCircle | Lightbulb

  datatype Card = Card(icon: Icon, message: seq<Segment>)

  /** What `Insights` renders: the analysing text, the placeholder, or one card per insight. */
  datatype InsightsPanel = Analyzing | NoInsights | Cards(cards: seq<Card>)

  /** `getIcon`'s `switch` on the insight's type. */
  function GetIcon(kind: string): (r: Icon)
    ensures r == ExclamationTriangle <==> kind == "warning"
    ensures r == InfoCircle <==> kind == "info"
    ensures r == Lightbulb <==> kind != "warning" && kind != "info"
  {
    if kind == "warning" then ExclamationTriangle
    else if kind == "info" then InfoCircle
    else Lightbulb
  }

  /** `message.split('**').map(...)`: part `i` is bold exactly when `i` is odd. */
  function FormatMessage(message: string): (r: seq<Segment>)
    ensures |r| == |Split(message, Marker)|
    ensures forall i :: 0 <= i < |r| ==> r[i].text == Split(message, Marker)[i] && (r[i].Bold? <==> i % 2 == 1)
  {
    var parts := Split(message, Marker);
    seq(|parts|, i requires 0 <= i < |parts| => if i % 2 == 1 then Bold(parts[i]) else Plain(parts[i]))
  }

  function SegmentTexts(segments: seq<Segment>): (r: seq<string>)
    ensures |r| == |segments| && forall i :: 0 <= i < |segments| ==> r[i] == segments[i].text
  {
    seq(|segments|, i requires 0 <= i < |segments| => segments[i].text)
  }

  /**
   * Nothing of the message is lost: the parts joined with `**` give the message back, and
   * there is one part more than the message has non-overlapping `**`.
   */
  lemma FormatMessageRoundTrip(message: string)
    ensures |FormatMessage(message)| == CountOccurrences(message, Marker) + 1
    ensures Join(SegmentTexts(FormatMessage(message)), Marker) == message
  {
    SplitCount(message, Marker);
    JoinSplit(message, Marker);
    assert SegmentTexts(FormatMessage(message)) == Split(message, Marker);
  }

  /** A piece without `*` followed by the marker ends a part of its own. */
  lemma SplitAtMarker(a: string, rest: string)
    requires '*' !in a
    ensures Split(a + Marker + rest, Marker) == [a] + Split(rest, Marker)
  {
    assert a + Marker + rest == a + (Marker + rest);
    SplitPlainPrefix(a, Marker + rest, Marker);
    SplitLeadingSeparator(rest, Marker);
    assert a + "" == a;
  }

  /** A piece without `*` is a single part. */
  lemma SplitPlain(a: string)
    requires '*' !in a
    ensures Split(a, Marker) == [a]
  {
    assert a + "" == a;
    SplitPlainPrefix(a, "", Marker);
  }

  /** The text before the category in the top-category message. */
  function TopPrefix(ym: YearMonth): (r: string)
    requires ValidMonth(ym)
    ensures '*' !in r
  {
    var name := MonthName(ym.month);
    assert forall i :: 0 <= i < |name| ==> name[i] != '*';
    var r := "Your top spending category for " + name + " was ";
    assert forall i :: 0 <= i < |r| ==> r[i] != '*' by {
      forall i | 0 <= i < |r| ensures r[i] != '*' {
        if 31 <= i < 31 + |name| {
          assert r[i] == name[i - 31];
        }
      }
    }
    r
  }

  /** With a category free of `*`, the top-category card shows the category, and only it, in bold. */
  lemma TopMessageFormat(ym: YearMonth, c: string)
    requires ValidMonth(ym) && '*' !in c
    ensures FormatMessage(TopMessage(ym, c)) == [Plain(TopPrefix(ym)), Bold(c), Plain(".")]
  {
    var p := TopPrefix(ym);
    assert TopMessage(ym, c) == p + Marker + (c + Marker + ".");
    SplitAtMarker(p, c + Marker + ".");
    SplitAtMarker(c, ".");
    SplitPlain(".");
  }

  /** No category the schema admits holds a `*`, so `TopMessageFormat` and `WarningMessageFormat` apply to every saved category. */
  lemma SchemaCategoriesHaveNoStar(c: string)
    requires c in CategoryEnum
    ensures '*' !in c
  {
  }

  lemma DigitsHaveNoStar(n: nat)
    ensures '*' !in NatToString(n) + "% higher"
  {
    var s := NatToString(n) + "% higher";
    forall i | 0 <= i < |s| ensures s[i] != '*' {
      if i < |NatToString(n)| {
        assert IsDigit(s[i]);
      }
    }
  }

  /**
   * With a category free of `*`, a warning card shows the category and the rounded
   * percentage with "% higher" in bold, between three plain parts.
   */
  lemma WarningMessageFormat(c: string, percent: nat)
    requires '*' !in c
    ensures FormatMessage(WarningMessage(c, percent)) ==
            [Plain("Heads up! Your spending on "), Bold(c), Plain(" is "),
             Bold(NatToString(percent) + "% higher"), Plain(" than your average.")]
  {
    DigitsHaveNoStar(percent);
    WarningLiteralsHaveNoStar();
    WarningMessageShape(c, percent);
    FiveParts("Heads up! Your spending on ", c, " is ", NatToString(percent) + "% higher", " than your average.");
  }

  /** Five `*`-free pieces joined by the marker split back into those five pieces. */
  lemma FiveParts(a: string, b: string, c: string, d: string, e: string)
    requires '*' !in a && '*' !in b && '*' !in c && '*' !in d && '*' !in e
    ensures Split(a + Marker + (b + Marker + (c + Marker + (d + Marker + e))), Marker) == [a, b, c, d, e]
  {
    SplitPlain(e);
    SplitAtMarker(d, e);
    SplitAtMarker(c, d + Marker + e);
    SplitAtMarker(b, c + Marker + (d + Marker + e));
    SplitAtMarker(a, b + Marker + (c + Marker + (d + Marker + e)));
  }

  /** The warning message, cut at its four markers. */
  lemma WarningMessageShape(c: string, percent: nat)
    ensures WarningMessage(c, percent) ==
            "Heads up! Your spending on " + Marker + (c + Marker + (" is " + Marker
            + (NatToString(percent) + "% higher" + Marker + " than your average.")))
  {
    WarningLiteralPieces();
  }

  lemma WarningLiteralPieces()
    ensures "Heads up! Your spending on **" == "Heads up! Your spending on " + Marker
    ensures "** is **" == Marker + " is " + Marker
    ensures "% higher** than your average." == "% higher" + Marker + " than your average."
  {
    WarningOpening();
    WarningClosing();
  }

  lemma WarningOpening()
    ensures "Heads up! Your spending on **" == "Heads up! Your spending on " + Marker
  {
  }

  lemma WarningClosing()
    ensures "% higher** than your average." == "% higher" + Marker + " than your average."
  {
  }

  lemma WarningLiteralsHaveNoStar()
    ensures '*' !in "Heads up! Your spending on " && '*' !in " is " && '*' !in " than your average."
  {
  }

  /** The `*`-free form is needed: a category ending in `*` moves the closing marker. */
  lemma TrailingStarBreaksBold()
    ensures Split("**a***.", Marker) == ["", "a", "*."]
  {
    var tail := "*.";
    assert tail[..2] == tail && tail != Marker;
    assert tail[1..] == ".";
    assert Split(".", Marker) == ["."];
    assert Split(tail, Marker) == [[tail[0]] + "."] + [];
    assert [tail[0]] + "." == tail;
    assert "a***." == "a" + Marker + tail;
    SplitAtMarker("a", tail);
    assert "**a***." == Marker + "a***.";
    SplitLeadingSeparator("a***.", Marker);
  }

  function RenderCard(insight: Insight): Card {
    Card(GetIcon(insight.kind), FormatMessage(insight.message))
  }

  /**
   * `Insights`: the analysing text while loading; the placeholder when the list is missing
   * or empty; otherwise one card per insight, in order.
   */
  function Render(insights: Option<seq<Insight>>, loading: bool): (r: InsightsPanel)
    ensures r.Analyzing? <==> loading
    ensures r.NoInsights? <==> !loading && (insights.None? || |insights.value| == 0)
    ensures r.Cards? ==> && insights.Some? && |r.cards| == |insights.value| > 0
                         && forall i :: 0 <= i < |r.cards| ==>
                              && r.cards[i].icon == GetIcon(insights.value[i].kind)
                              && r.cards[i].message == FormatMessage(insights.value[i].message)
                              && Join(SegmentTexts(r.cards[i].message), Marker) == insights.value[i].message
  {
    if loading then Analyzing
    else if insights.None? || |insights.value| == 0 then NoInsights
    else
      var cards := seq(|insights.value|, i requires 0 <= i < |insights.value| => RenderCard(insights.value[i]));
      forall i | 0 <= i < |cards|
        ensures Join(SegmentTexts(cards[i].message), Marker) == insights.value[i].message
      {
        FormatMessageRoundTrip(insights.value[i].message);
      }
      Cards(cards)
  }

  /**
   * The server only sends `info` and `warning` insights, so no card shows the lightbulb:
   * a warning card shows the triangle and an info card the circle.
   */
  lemma ServerInsightsHaveKnownIcons(insights: seq<Insight>)
    requires forall i :: 0 <= i < |insights| ==> insights[i].kind in {"info", "warning"}
    ensures Render(Some(insights), false).Cards? ==>
              forall i :: 0 <= i < |insights| ==>
                && Render(Some(insights), false).cards[i].icon != Lightbulb
                && (Render(Some(insights), false).cards[i].icon == ExclamationTriangle <==> insights[i].kind == "warning")
  {
  }
}
