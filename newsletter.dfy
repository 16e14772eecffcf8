/**
 * The sending job of scripts/send-newsletter.js: pick the active subscribers,
 * render one article into an HTML and a plain-text body, and attempt one mail
 * per active subscriber, counting the deliveries that succeed and those that fail.
 */
module Newsletter {
  import opened Wrappers
  import opened Strings
  import opened Subscriptions

  // ---------------------------------------------------------------- the active list

  /** A record the sender mails: only an explicit `active: false` excludes it. */
  predicate IsActive(s: Subscriber) {
    s.active != Some(false)
  }

  /** `subscribers.filter(s => s.active !== false)`. */
  function ActiveSubscribers(subs: seq<Subscriber>): (r: seq<Subscriber>)
    ensures |r| <= |subs|
    ensures forall x :: x in r <==> x in subs && IsActive(x)
  {
    if subs == [] then []
    else (if IsActive(subs[0]) then [subs[0]] else []) + ActiveSubscribers(subs[1..])
  }

  /** The filter keeps the original order: it distributes over concatenation. */
  lemma {:induction false} ActiveAppend(a: seq<Subscriber>, b: seq<Subscriber>)
    ensures ActiveSubscribers(a + b) == ActiveSubscribers(a) + ActiveSubscribers(b)
  {
    if a == [] {
      assert a + b == b;
    } else {
      assert (a + b)[1..] == a[1..] + b;
      ActiveAppend(a[1..], b);
    }
  }

  /** Legacy records without an `active` field are all mailed, in list order. */
  lemma {:induction false} LegacyRecordsActive(subs: seq<Subscriber>)
    requires forall i :: 0 <= i < |subs| ==> subs[i].active.None?
    ensures ActiveSubscribers(subs) == subs
  {
    if subs != [] {
      LegacyRecordsActive(subs[1..]);
    }
  }

  /** Nothing is sent exactly when every record says `active: false`. */
  lemma NoneActive(subs: seq<Subscriber>)
    ensures ActiveSubscribers(subs) == [] <==> forall i :: 0 <= i < |subs| ==> subs[i].active == Some(false)
  {
    if ActiveSubscribers(subs) == [] {
      forall i | 0 <= i < |subs| ensures subs[i].active == Some(false) {
        assert subs[i] in subs;
      }
    } else {
      var x := ActiveSubscribers(subs)[0];
      assert x in ActiveSubscribers(subs);
    }
  }

  // ---------------------------------------------------------------- the article

  /** The `quote` field: a plain string, or an object with `text` and possibly `source`. */
  datatype Quote = PlainQuote(text: string) | QuoteObject(text: string, quoteSource: Option<string>)

  datatype Article = Article(
    title: string,
    author: string,
    quote: Quote,
    reflection: string,
    tags: Option<seq<string>>,
    source: Option<string>)

  /** A possibly undefined value interpolated into a template literal. */
  function Shown(v: Option<string>): string {
    v.GetOr("undefined")
  }

  /** The quoted text: the object's `text`, or the string itself. */
  function QuoteText(a: Article): string {
    match a.quote
    case QuoteObject(text, _) => text
    case PlainQuote(text) => text
  }

  /** The attribution: the object's `source`, else the article's `source`, else "". */
  function QuoteSource(a: Article): string {
    match a.quote
    case QuoteObject(_, src) => Shown(src)
    case PlainQuote(_) => a.source.GetOr("")
  }

  // ---------------------------------------------------------------- the date

  const Months: map<string, string> := map[
    "01" := "Enero", "02" := "Febrero", "03" := "Marzo", "04" := "Abril",
    "05" := "Mayo", "06" := "Junio", "07" := "Julio", "08" := "Agosto",
    "09" := "Septiembre", "10" := "Octubre", "11" := "Noviembre", "12" := "Diciembre"]

  /** `MONTHS[m]` interpolated: the month name, or "undefined" for any other key. */
  function MonthName(m: Option<string>): string {
    var key := Shown(m);
    if key in Months then Months[key] else "undefined"
  }

  /** `${parseInt(d)}`: the day without leading zeros, or "NaN". */
  function DayName(d: Option<string>): string {
    NumberToString(ParseInt(Shown(d)))
  }

  /** Destructuring `[y, m, d]`: a missing element is undefined. */
  function Part(parts: seq<string>, i: nat): Option<string> {
    if i < |parts| then Some(parts[i]) else None
  }

  /** `${parseInt(d)} de ${MONTHS[m]}, ${y}` after `[y, m, d] = date.split('-')`. */
  function DisplayDate(date: string): string {
    var parts := Split(date, '-');
    DayName(Part(parts, 2)) + " de " + MonthName(Part(parts, 1)) + ", " + parts[0]
  }

  /**
   * A `YYYY-MM-DD` date is shown as the day without its leading zero, " de ",
   * the Spanish month name, ", " and the year.
   */
  lemma DisplayWellFormedDate(y: string, m: string, d: string)
    requires |y| == 4 && |m| == 2 && |d| == 2 && AllDigits(y) && AllDigits(m) && AllDigits(d)
    requires m in Months
    ensures DisplayDate(y + "-" + m + "-" + d) ==
      (if d[0] == '0' then d[1..] else d) + " de " + Months[m] + ", " + y
  {
    var date := y + "-" + m + "-" + d;
    assert Split(date, '-') == [y, m, d] by {
      assert date == y + ['-'] + m + ['-'] + d;
      DigitsNoDash(y);
      DigitsNoDash(m);
      DigitsNoDash(d);
      SplitThree(y, m, d, '-');
    }
    DisplayOfParts(date, y, m, d);
    assert DayName(Some(d)) == if d[0] == '0' then d[1..] else d by {
      TwoDigits(d);
    }
  }

  /** A date that splits into three parts shows the day, the month and the year parts. */
  lemma DisplayOfParts(date: string, y: string, m: string, d: string)
    requires Split(date, '-') == [y, m, d]
    ensures DisplayDate(date) == DayName(Some(d)) + " de " + MonthName(Some(m)) + ", " + y
  {
  }

  /** `parseInt(undefined)` is NaN: "undefined" has no leading digit. */
  lemma UndefinedDayName()
    ensures DayName(None) == "NaN"
  {
    var u := Shown(None);
    assert u == "undefined";
    assert !IsSpace(u[0]);
    assert TrimStart(u) == u;
    assert SignStripped(u) == u;
    assert !IsDigit(u[0]);
  }

  /**
   * A date with fewer than three dash-separated parts has no day: it is shown
   * as "NaN de ", the month (if any) and the first part.
   */
  lemma DisplayShortDate(date: string)
    requires |Split(date, '-')| < 3
    ensures DisplayDate(date) ==
      "NaN de " + MonthName(Part(Split(date, '-'), 1)) + ", " + Split(date, '-')[0]
  {
    var parts := Split(date, '-');
    var month := MonthName(Part(parts, 1));
    assert Part(parts, 2) == None;
    assert DisplayDate(date) == DayName(None) + " de " + month + ", " + parts[0];
    NoDayShown(month, parts[0]);
  }

  lemma NoDayShown(month: string, year: string)
    ensures DayName(None) + " de " + month + ", " + year == "NaN de " + month + ", " + year
  {
    UndefinedDayName();
    NaNPrefix(DayName(None), month, year);
  }

  lemma NaNPrefix(day: string, month: string, year: string)
    requires day == "NaN"
    ensures day + " de " + month + ", " + year == "NaN de " + month + ", " + year
  {
    assert day + " de " == "NaN de ";
  }

  /** A date without any dash is shown as "NaN de undefined, " and the whole string. */
  lemma DisplayUndashedDate(date: string)
    requires '-' !in date
    ensures DisplayDate(date) == "NaN de undefined, " + date
  {
    assert DisplayDate(date) == "NaN de " + MonthName(None) + ", " + date by {
      SplitNoSep(date, '-');
      DisplayShortDate(date);
    }
    NoMonthShown(date);
  }

  lemma NoMonthShown(year: string)
    ensures "NaN de " + MonthName(None) + ", " + year == "NaN de undefined, " + year
  {
    var month := MonthName(None);
    UndefinedMonthName();
    assert "NaN de " + month + ", " == "NaN de undefined, ";
  }

  /** `MONTHS[undefined]` is undefined. */
  lemma UndefinedMonthName()
    ensures MonthName(None) == "undefined"
  {
    assert "undefined" !in Months;
  }

  lemma DigitsNoDash(s: string)
    requires AllDigits(s)
    ensures '-' !in s
  {
    forall i | 0 <= i < |s|
      ensures s[i] != '-'
    {
      assert IsDigit(s[i]);
    }
  }

  // ---------------------------------------------------------------- the text body

  // Each constant is written as two shorter literals, which keeps the verifier's
  // reasoning about the characters of the whole string cheap.
  const SiteUrl := "https://diego-devs.github.io" + "/estoicismo-diario"
  const CancelHint := "Para cancelar tu suscripción, " + "responde con asunto \"CANCELAR\"."

  /** The lines of the plain-text body, in template order. */
  function TextLines(a: Article, date: string): seq<string> {
    ["ESTOICISMO DIARIO — " + date, "",
     a.title,
     a.author, "",
     "\"" + QuoteText(a) + "\"",
     "— " + a.author + " (" + QuoteSource(a) + ")", "",
     a.reflection, "",
     "---",
     "Ver en el sitio: " + SiteUrl,
     CancelHint]
  }

  /** `buildEmailText`: the lines joined by newlines. */
  function EmailText(a: Article, date: string): string {
    Join(TextLines(a, date), '\n')
  }

  /** Splitting a joined sequence of lines gives back the parts of every line, in order. */
  lemma {:induction false} SplitJoin(lines: seq<string>, sep: char)
    requires |lines| >= 1
    ensures Split(Join(lines, sep), sep) == SplitEach(lines, sep)
  {
    if |lines| > 1 {
      SplitJoin(lines[1..], sep);
      SplitAround(lines[0], sep, Join(lines[1..], sep));
    }
  }

  function SplitEach(lines: seq<string>, sep: char): seq<string> {
    if lines == [] then [] else Split(lines[0], sep) + SplitEach(lines[1..], sep)
  }

  lemma {:induction false} SplitEachNoSep(lines: seq<string>, sep: char)
    requires forall i :: 0 <= i < |lines| ==> sep !in lines[i]
    ensures SplitEach(lines, sep) == lines
  {
    if lines != [] {
      SplitNoSep(lines[0], sep);
      SplitEachNoSep(lines[1..], sep);
    }
  }

  lemma {:induction false} SplitEachAppend(a: seq<string>, b: seq<string>, sep: char)
    ensures SplitEach(a + b, sep) == SplitEach(a, sep) + SplitEach(b, sep)
  {
    if a == [] {
      assert a + b == b;
    } else {
      assert (a + b)[1..] == a[1..] + b;
      SplitEachAppend(a[1..], b, sep);
    }
  }

  /**
   * The text body starts with the header line, and when the header fields hold
   * no newline its lines are: header, blank, title, author, blank, the quoted
   * text, the attribution, blank, the lines of the reflection, blank, "---",
   * the site link and the cancel hint.
   */
  lemma EmailTextLayout(a: Article, date: string)
    requires '\n' !in date && '\n' !in a.title && '\n' !in a.author
    requires '\n' !in QuoteText(a) && '\n' !in QuoteSource(a)
    ensures Split(EmailText(a, date), '\n') ==
      ["ESTOICISMO DIARIO — " + date, "", a.title, a.author, "",
       "\"" + QuoteText(a) + "\"", "— " + a.author + " (" + QuoteSource(a) + ")", ""]
      + Split(a.reflection, '\n')
      + ["", "---", "Ver en el sitio: " + SiteUrl, CancelHint]
  {
    var lines := TextLines(a, date);
    var head, tail := lines[..8], lines[9..];
    HeadLinesFree(a, date);
    TailLinesFree();
    SplitJoin(lines, '\n');
    assert lines == head + [a.reflection] + tail;
    SplitEachAppend(head + [a.reflection], tail, '\n');
    SplitEachAppend(head, [a.reflection], '\n');
    SplitEachNoSep(head, '\n');
    SplitEachNoSep(tail, '\n');
    assert SplitEach([a.reflection], '\n') == Split(a.reflection, '\n');
  }

  /** The text body opens with the header line. */
  lemma EmailTextHeader(a: Article, date: string)
    ensures EmailText(a, date)[..|"ESTOICISMO DIARIO — " + date| + 1] == "ESTOICISMO DIARIO — " + date + "\n"
  {
    var lines := TextLines(a, date);
    assert EmailText(a, date) == lines[0] + "\n" + Join(lines[1..], '\n');
  }

  lemma HeadLinesFree(a: Article, date: string)
    requires '\n' !in date && '\n' !in a.title && '\n' !in a.author
    requires '\n' !in QuoteText(a) && '\n' !in QuoteSource(a)
    ensures forall i :: 0 <= i < 8 ==> '\n' !in TextLines(a, date)[i]
  {
    NotInAppend('\n', "ESTOICISMO DIARIO — ", date);
    NotInAppend('\n', "\"", QuoteText(a));
    NotInAppend('\n', "\"" + QuoteText(a), "\"");
    NotInAppend('\n', "— ", a.author);
    NotInAppend('\n', "— " + a.author, " (");
    NotInAppend('\n', "— " + a.author + " (", QuoteSource(a));
    NotInAppend('\n', "— " + a.author + " (" + QuoteSource(a), ")");
  }

  lemma TailLinesFree()
    ensures '\n' !in "---" && '\n' !in "Ver en el sitio: " + SiteUrl && '\n' !in CancelHint
  {
    SiteLinkFree();
    CancelHintFree();
  }

  lemma SiteLinkFree()
    ensures '\n' !in "Ver en el sitio: " + SiteUrl
  {
    assert '\n' !in SiteUrl by {
      NotInAppend('\n', "https://diego-devs.github.io", "/estoicismo-diario");
    }
    NotInAppend('\n', "Ver en el sitio: ", SiteUrl);
  }

  lemma CancelHintFree()
    ensures '\n' !in CancelHint
  {
    NotInAppend('\n', "Para cancelar tu suscripción, ", "responde con asunto \"CANCELAR\".");
  }

  // ---------------------------------------------------------------- the HTML body

  /**
   * The fixed inline-CSS markup of `buildEmailHTML`, in the order it surrounds
   * the interpolated values; this model does not spell the markup out.
   */
  datatype Markup = Markup(
    beforeTitle: string, beforeDate: string, beforeAuthor: string, beforeQuote: string,
    beforeAttribution: string, beforeSource: string, beforeReflection: string,
    beforeTags: string, beforeSiteUrl: string, end: string,
    tagsOpen: string, tagOpen: string, tagClose: string, tagsClose: string)

  /** One tag rendered as a `#tag` span. */
  function TagSpan(m: Markup, t: string): string {
    m.tagOpen + "#" + t + m.tagClose
  }

  /** `tags.map(...).join('')`. */
  function TagSpans(m: Markup, tags: seq<string>): string {
    if tags == [] then "" else TagSpan(m, tags[0]) + TagSpans(m, tags[1..])
  }

  /** The tags block: present exactly when the article has a `tags` field. */
  function TagsBlock(m: Markup, tags: Option<seq<string>>): string {
    match tags
    case None => ""
    case Some(ts) => m.tagsOpen + TagSpans(m, ts) + m.tagsClose
  }

  /** The tag spans follow the sequence order: rendering distributes over concatenation. */
  lemma {:induction false} TagSpansAppend(m: Markup, a: seq<string>, b: seq<string>)
    ensures TagSpans(m, a + b) == TagSpans(m, a) + TagSpans(m, b)
  {
    if a == [] {
      assert a + b == b;
    } else {
      assert (a + b)[1..] == a[1..] + b;
      TagSpansAppend(m, a[1..], b);
    }
  }

  /** `buildEmailHTML`. */
  function EmailHtml(m: Markup, a: Article, date: string): string {
    m.beforeTitle + a.title + m.beforeDate + DisplayDate(date) + m.beforeAuthor + a.author
    + m.beforeQuote + QuoteText(a) + m.beforeAttribution + a.author + m.beforeSource + QuoteSource(a)
    + m.beforeReflection + a.reflection + m.beforeTags + TagsBlock(m, a.tags)
    + m.beforeSiteUrl + SiteUrl + m.end
  }

  /** The HTML and the text body make the same quote and source selection for both shapes of `quote`. */
  lemma QuoteShapesAgree(m: Markup, a: Article, date: string, text: string, src: string)
    requires a.quote == PlainQuote(text) && a.source == Some(src)
    ensures var b := a.(quote := QuoteObject(text, Some(src)), source := None);
      EmailText(b, date) == EmailText(a, date) && EmailHtml(m, b, date) == EmailHtml(m, a, date)
      && QuoteText(a) == text && QuoteSource(a) == src
  {
  }

  // ---------------------------------------------------------------- the send loop

  const Placeholder := "{{UNSUB_EMAIL}}"

  /** One message handed to the transport. */
  datatype Mail = Mail(from: string, to: string, subject: string, html: string, text: string)

  /** The message for one recipient: the same bodies, with the first placeholder replaced. */
  function MailFor(account: string, sub: Subscriber, a: Article, html: string, text: string): Mail {
    Mail("\"Estoicismo Diario\" <" + account + ">", sub.email,
         "🏛️ " + a.title + " — " + a.author,
         ReplaceFirst(html, Placeholder, sub.email), text)
  }

  /** How many of the first `n` attempts are delivered. */
  function CountDelivered(delivered: nat -> bool, n: nat): (c: nat)
    ensures c <= n
  {
    if n == 0 then 0 else CountDelivered(delivered, n - 1) + if delivered(n - 1) then 1 else 0
  }

  /**
   * The loop of `main`: one attempt per active subscriber, in list order;
   * `delivered(k)` is whether the transport accepted the k-th attempt.
   */
  method SendAll(account: string, active: seq<Subscriber>, a: Article, html: string, text: string,
                 delivered: nat -> bool)
    returns (sent: nat, failed: nat, attempts: seq<Mail>)
    ensures |attempts| == |active|
    ensures forall k :: 0 <= k < |active| ==> attempts[k] == MailFor(account, active[k], a, html, text)
    ensures sent == CountDelivered(delivered, |active|)
    ensures sent + failed == |active|
  {
    sent, failed, attempts := 0, 0, [];
    for k := 0 to |active|
      invariant |attempts| == k
      invariant forall j :: 0 <= j < k ==> attempts[j] == MailFor(account, active[j], a, html, text)
      invariant sent == CountDelivered(delivered, k)
      invariant sent + failed == k
    {
      attempts := attempts + [MailFor(account, active[k], a, html, text)];
      if delivered(k) {
        sent := sent + 1;
      } else {
        failed := failed + 1;
      }
    }
  }

  /** How a run ends. */
  datatype Report =
    | NoActiveSubscribers
    | ArticleNotFound
    | Done(sent: nat, failed: nat, total: nat, attempts: seq<Mail>)

  /**
   * `main`: skip when nobody is active, fail when the article for `date` is
   * missing, otherwise render both bodies once and send to every active subscriber.
   */
  method SendNewsletter(account: string, list: seq<Subscriber>, date: string, article: Option<Article>,
                        m: Markup, delivered: nat -> bool)
    returns (report: Report)
    ensures report.NoActiveSubscribers? <==> ActiveSubscribers(list) == []
    ensures report.ArticleNotFound? <==> ActiveSubscribers(list) != [] && article.None?
    ensures report.Done? ==>
      var active := ActiveSubscribers(list);
      report.total == |active| && report.sent + report.failed == report.total
      && report.sent == CountDelivered(delivered, report.total)
      && |report.attempts| == report.total
      && forall k :: 0 <= k < |active| ==>
        report.attempts[k] == MailFor(account, active[k], article.value,
                                      EmailHtml(m, article.value, date), EmailText(article.value, date))
  {
    var active := ActiveSubscribers(list);
    if |active| == 0 {
      return NoActiveSubscribers;
    }
    if article.None? {
      return ArticleNotFound;
    }
    var html := EmailHtml(m, article.value, date);
    var text := EmailText(article.value, date);
    var sent, failed, attempts := SendAll(account, active, article.value, html, text, delivered);
    report := Done(sent, failed, |active|, attempts);
  }

  // ---------------------------------------------------------------- the placeholder

  predicate NoBrace(s: string) {
    '{' !in s
  }

  predicate MarkupNoBrace(m: Markup) {
    NoBrace(m.beforeTitle) && NoBrace(m.beforeDate) && NoBrace(m.beforeAuthor) && NoBrace(m.beforeQuote)
    && NoBrace(m.beforeAttribution) && NoBrace(m.beforeSource) && NoBrace(m.beforeReflection)
    && NoBrace(m.beforeTags) && NoBrace(m.beforeSiteUrl) && NoBrace(m.end)
    && NoBrace(m.tagsOpen) && NoBrace(m.tagOpen) && NoBrace(m.tagClose) && NoBrace(m.tagsClose)
  }

  lemma NumberNoBrace(n: Option<int>)
    ensures NoBrace(NumberToString(n))
  {
    match n
    case None =>
    case Some(v) =>
      var digits := NatToString(if v < 0 then -v else v);
      assert forall i :: 0 <= i < |digits| ==> digits[i] != '{';
  }

  lemma DayNameNoBrace(d: Option<string>)
    ensures NoBrace(DayName(d))
  {
    NumberNoBrace(ParseInt(Shown(d)));
  }

  lemma MonthNameNoBrace(m: Option<string>)
    ensures NoBrace(MonthName(m))
  {
    var key := Shown(m);
    if key in Months {
      assert key in {"01", "02", "03", "04", "05", "06", "07", "08", "09", "10", "11", "12"};
    }
  }

  lemma DisplayDateNoBrace(date: string)
    requires NoBrace(date)
    ensures NoBrace(DisplayDate(date))
  {
    var parts := Split(date, '-');
    var day, month := DayName(Part(parts, 2)), MonthName(Part(parts, 1));
    assert NoBrace(day) by { DayNameNoBrace(Part(parts, 2)); }
    assert NoBrace(month) by { MonthNameNoBrace(Part(parts, 1)); }
    assert NoBrace(parts[0]) by { SplitFirst(date, '-'); }
    assert NoBrace(" de ") && NoBrace(", ");
    NotInAppend('{', day, " de ");
    NotInAppend('{', day + " de ", month);
    NotInAppend('{', day + " de " + month, ", ");
    NotInAppend('{', day + " de " + month + ", ", parts[0]);
  }

  lemma {:induction false} TagSpansNoBrace(m: Markup, tags: seq<string>)
    requires MarkupNoBrace(m) && forall i :: 0 <= i < |tags| ==> NoBrace(tags[i])
    ensures NoBrace(TagSpans(m, tags))
  {
    if tags != [] {
      TagSpansNoBrace(m, tags[1..]);
    }
  }

  /**
   * The per-recipient `replace` changes nothing when neither the markup nor the
   * article's text holds a `{`: every recipient gets the same HTML body.
   */
  lemma PersonalizedHtmlUnchanged(m: Markup, a: Article, date: string, email: string)
    requires MarkupNoBrace(m)
    requires NoBrace(a.title) && NoBrace(a.author) && NoBrace(QuoteText(a)) && NoBrace(QuoteSource(a))
    requires NoBrace(a.reflection) && NoBrace(date)
    requires a.tags.Some? ==> forall i :: 0 <= i < |a.tags.value| ==> NoBrace(a.tags.value[i])
    ensures ReplaceFirst(EmailHtml(m, a, date), Placeholder, email) == EmailHtml(m, a, date)
  {
    HtmlNoBrace(m, a, date);
    if Contains(EmailHtml(m, a, date), Placeholder) {
      ContainsHead(EmailHtml(m, a, date), Placeholder);
    }
  }

  lemma TagsBlockNoBrace(m: Markup, tags: Option<seq<string>>)
    requires MarkupNoBrace(m)
    requires tags.Some? ==> forall i :: 0 <= i < |tags.value| ==> NoBrace(tags.value[i])
    ensures NoBrace(TagsBlock(m, tags))
  {
    if tags.Some? {
      TagSpansNoBrace(m, tags.value);
      NotInAppend('{', m.tagsOpen, TagSpans(m, tags.value));
      NotInAppend('{', m.tagsOpen + TagSpans(m, tags.value), m.tagsClose);
    }
  }

  lemma SiteUrlNoBrace()
    ensures NoBrace(SiteUrl)
  {
    NotInAppend('{', "https://diego-devs.github.io", "/estoicismo-diario");
  }

  /** The page assembled from brace-free pieces holds no brace. */
  lemma PageNoBrace(m: Markup, title: string, date: string, author: string, quote: string, source: string,
                    reflection: string, tags: string, url: string)
    requires MarkupNoBrace(m)
    requires NoBrace(title) && NoBrace(date) && NoBrace(author) && NoBrace(quote) && NoBrace(source)
    requires NoBrace(reflection) && NoBrace(tags) && NoBrace(url)
    ensures NoBrace(m.beforeTitle + title + m.beforeDate + date + m.beforeAuthor + author
      + m.beforeQuote + quote + m.beforeAttribution + author + m.beforeSource + source
      + m.beforeReflection + reflection + m.beforeTags + tags
      + m.beforeSiteUrl + url + m.end)
  {
  }

  lemma HtmlNoBrace(m: Markup, a: Article, date: string)
    requires MarkupNoBrace(m)
    requires NoBrace(a.title) && NoBrace(a.author) && NoBrace(QuoteText(a)) && NoBrace(QuoteSource(a))
    requires NoBrace(a.reflection) && NoBrace(date)
    requires a.tags.Some? ==> forall i :: 0 <= i < |a.tags.value| ==> NoBrace(a.tags.value[i])
    ensures NoBrace(EmailHtml(m, a, date))
  {
    DisplayDateNoBrace(date);
    TagsBlockNoBrace(m, a.tags);
    SiteUrlNoBrace();
    PageNoBrace(m, a.title, DisplayDate(date), a.author, QuoteText(a), QuoteSource(a),
                a.reflection, TagsBlock(m, a.tags), SiteUrl);
  }
}
