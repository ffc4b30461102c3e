/**
 * Reading one user's weekly listening report off the report page.
 *
 * The page is modelled after node selection: each record below holds the
 * text of the nodes the extractor selects, and `None` (or a missing map key)
 * stands for a selector that matched nothing. Selecting the nodes themselves
 * is not part of this model.
 */
module Extract {
  import opened Wrappers
  import opened PyStr
  import opened Records

  /** A ".report-box-container--quick-fact" box: its whole text, and its value and detail nodes. */
  datatype QuickFact = QuickFact(text: string, value: Option<string>, detail: Option<string>)

  /** The anchor ".top-item-modal-link-text": its text and its `href` attribute. */
  datatype Link = Link(text: string, href: Option<string>)

  /** The modal of the top item ("#top-artist" and so on): header, play count and link. */
  datatype TopPanel = TopPanel(header: Option<string>, value: Option<string>, link: Option<Link>)

  /**
   * A ".listening-report-row__col--top-items" row: the classes occurring inside
   * it, its secondary names and values, and its "new item" title and count.
   */
  datatype TopItemsRow = TopItemsRow(
    classes: set<string>,
    names: seq<string>,
    values: seq<string>,
    newTitle: Option<string>,
    newCount: Option<string>)

  /**
   * The report page: the headline total, the quick facts in page order, the
   * ".top-item-overview__scrobbles" text of each overview block (keyed by the
   * block's selector), the top panels (keyed by id) and the rows in page order.
   */
  datatype Page = Page(
    headlineTotal: Option<string>,
    quickFacts: seq<QuickFact>,
    overviews: map<string, Option<string>>,
    topPanels: map<string, TopPanel>,
    rows: seq<TopItemsRow>)

  /** Why extraction gave up on a page (the source raises an assertion error or an exception). */
  datatype ExtractionError =
    | MissingNode(selector: string)
    | NotNumeric(text: string)
    | ButtonMoved(linkText: string)
    | LengthMismatch(names: nat, values: nat)
    | FactNotFound(needle: string, facts: nat)
    | TopOverviewNotFound(needle: string)

  type Extracted<T> = Result<T, ExtractionError>

  /** The three kinds of top list. */
  datatype Category = Artist | Album | Track

  function TopId(c: Category): string {
    match c
    case Artist => "#top-artist"
    case Album => "#top-album"
    case Track => "#top-track"
  }

  function ViewNeedle(c: Category): string {
    match c
    case Artist => "View Artist page"
    case Album => "View Album page"
    case Track => "View Track page"
  }

  function OverviewNeedle(c: Category): string {
    match c
    case Artist => ".top-item-overview--artist"
    case Album => ".top-item-overview--album"
    case Track => ".top-item-overview--track"
  }

  function TopNewNeedle(c: Category): string {
    match c
    case Artist => ".top-new-item-type__artist"
    case Album => ".top-new-item-type__album"
    case Track => ".top-new-item-type__track"
  }

  const AverageNeedle: string := "Average scrobbles"
  const ListeningTimeNeedle: string := "Listening time"
  const LastFmRoot: string := "https://www.last.fm"

  /** The report page of a user. */
  function ReportUrl(target: string): string {
    "https://www.last.fm/user/" + target + "/listening-report/week"
  }

  function Need<T>(node: Option<T>, selector: string): Extracted<T> {
    match node
    case Some(v) => Ok(v)
    case None => Err(MissingNode(selector))
  }

  // ---------------------------------------------------------------------------
  // `_int`

  /** One cleaning step applied to a scraped text. */
  datatype Cleaning =
    | Remove(pat: string)           // `s.replace(pat, "")`
    | StripSpace                    // `s.strip()`
    | StripLeading(chars: string)   // `s.lstrip(chars)`, a character SET
    | StripTrailing(chars: string)  // `s.rstrip(chars)`, a character SET

  function Apply(s: string, step: Cleaning): string {
    match step
    case Remove(pat) => if pat == [] then s else Replace(s, pat, "")
    case StripSpace => Strip(s)
    case StripLeading(chars) => LStrip(s, chars)
    case StripTrailing(chars) => RStrip(s, chars)
  }

  /** The steps applied left to right. */
  function Clean(s: string, steps: seq<Cleaning>): string
    decreases |steps|
  {
    if steps == [] then s else Clean(Apply(s, steps[0]), steps[1..])
  }

  /** `_int`'s cleaning chain. */
  const IntCleaning: seq<Cleaning> :=
    [Remove(","), Remove("scrobbles"), StripSpace, StripLeading("days,"), StripTrailing("hours"), StripSpace]

  function CleanNumber(s: string): string {
    Clean(s, IntCleaning)
  }

  /** `_int`'s chain written out: the replacements, a strip, the two set strips, a strip. */
  lemma CleanNumberChain(s: string)
    ensures CleanNumber(s) == Strip(RStrip(LStrip(Strip(Replace(Replace(s, ",", ""), "scrobbles", "")), "days,"), "hours"))
  {
    var s1 := Replace(s, ",", "");
    var s2 := Replace(s1, "scrobbles", "");
    var s3 := Strip(s2);
    var s4 := LStrip(s3, "days,");
    var s5 := RStrip(s4, "hours");
    var t := IntCleaning;
    calc {
      Clean(s, t);
      Clean(s1, t[1..]);
      { assert t[1..][0] == Remove("scrobbles"); }
      Clean(s2, t[2..]);
      { assert t[1..][1..] == t[2..]; assert t[2..][0] == StripSpace; }
      Clean(s3, t[3..]);
      { assert t[2..][1..] == t[3..]; assert t[3..][0] == StripLeading("days,"); }
      Clean(s4, t[4..]);
      { assert t[3..][1..] == t[4..]; assert t[4..][0] == StripTrailing("hours"); }
      Clean(s5, t[5..]);
      { assert t[4..][1..] == t[5..]; assert t[5..][0] == StripSpace; }
      Clean(Strip(s5), t[6..]);
      { assert t[5..][1..] == t[6..] == []; }
      Strip(s5);
    }
  }

  /**
   * Applies the remaining cleaning steps to `s`, then reads the result as a
   * decimal numeral; `original` is the text as scraped, kept for the error.
   *
   * This folds the steps itself instead of calling `Clean` so that `ParseInt`
   * is one recursive call: the verifier unfolds it only as far as a proof
   * needs, rather than meeting `Clean` applied to the literal step list
   * wherever `ParseInt` occurs. `ReadNumberIsClean` shows the two agree.
   */
  function ReadNumber(original: string, s: string, steps: seq<Cleaning>): Extracted<nat>
    decreases |steps|
  {
    if steps == [] then
      if IsNumeric(s) then Ok(DigitsValue(s)) else Err(NotNumeric(original))
    else ReadNumber(original, Apply(s, steps[0]), steps[1..])
  }

  /** `_int`: the cleaned text must be a decimal numeral, otherwise extraction fails. */
  function ParseInt(s: string): Extracted<nat> {
    ReadNumber(s, s, IntCleaning)
  }

  /** Reading is cleaning followed by the numeral check. */
  lemma {:induction false} ReadNumberIsClean(original: string, s: string, steps: seq<Cleaning>)
    ensures var n := Clean(s, steps);
            ReadNumber(original, s, steps) == if IsNumeric(n) then Ok(DigitsValue(n)) else Err(NotNumeric(original))
    decreases |steps|
  {
    if steps != [] {
      ReadNumberIsClean(original, Apply(s, steps[0]), steps[1..]);
    }
  }

  /** `_int` succeeds exactly on texts that clean to a numeral, and then yields that numeral's value. */
  lemma ParseIntSpec(s: string)
    ensures ParseInt(s).Ok? <==> IsNumeric(CleanNumber(s))
    ensures ParseInt(s).Ok? ==> ParseInt(s).value == DigitsValue(CleanNumber(s))
    ensures ParseInt(s).Err? ==> ParseInt(s).error == NotNumeric(s)
  {
    ReadNumberIsClean(s, s, IntCleaning);
  }

  /** A text that cleans to the numeral `d` reads as the value of `d`. */
  lemma ParseIntOf(s: string, d: string)
    requires IsNumeric(d) && CleanNumber(s) == d
    ensures ParseInt(s).Ok? && ParseInt(s).value == DigitsValue(d)
  {
    ParseIntSpec(s);
  }

  lemma DigitsAvoid(d: string, c: char)
    requires AllDigits(d) && !IsDigit(c)
    ensures c !in d
  {
  }

  /** Neither replacement touches a numeral. */
  lemma ReplacementsKeepNumeral(d: string)
    requires IsNumeric(d)
    ensures Replace(Replace(d, ",", ""), "scrobbles", "") == d
  {
    DigitsAvoid(d, ',');
    ContainsChar(d, ',');
    ReplaceAbsent(d, ",", "");
    DigitsAvoid(d, 's');
    NotContainsHead(d, "scrobbles");
    ReplaceAbsent(d, "scrobbles", "");
  }

  /** `strip` and the two set strips leave a numeral alone. */
  lemma StripNumeral(d: string)
    requires IsNumeric(d)
    ensures Strip(d) == d
    ensures LStrip(d, "days,") == d && RStrip(d, "hours") == d
  {
    assert d[0] !in Whitespace && d[|d| - 1] !in Whitespace;
    assert d[0] !in "days," && d[|d| - 1] !in "hours";
    RStripTrailing(d, [], Whitespace);
    RStripTrailing(d, [], "hours");
    assert d + [] == d;
  }

  /** Cleaning leaves a numeral unchanged. */
  lemma CleanNumeral(d: string)
    requires IsNumeric(d)
    ensures CleanNumber(d) == d
  {
    CleanNumberChain(d);
    ReplacementsKeepNumeral(d);
    StripNumeral(d);
  }

  /** `_int(str(n)) == n`: every natural number's numeral reads back as itself. */
  lemma ParseIntRoundTrip(n: nat)
    ensures ParseInt(NatToString(n)).Ok? && ParseInt(NatToString(n)).value == n
  {
    CleanNumeral(NatToString(n));
    ParseIntOf(NatToString(n), NatToString(n));
  }

  /** Removing the commas of "<a>,<b>" leaves "<a><b>". */
  lemma CommaDropped(a: string, b: string)
    requires IsNumeric(a) && IsNumeric(b)
    ensures Replace(a + "," + b, ",", "") == a + b
  {
    DigitsAvoid(a, ',');
    DigitsAvoid(b, ',');
    ReplaceCharOnce(a, b, ',');
  }

  /** Thousands separators are ignored: "<a>,<b>" reads as the numeral "<a><b>". */
  lemma ParseIntDropsComma(a: string, b: string)
    requires IsNumeric(a) && IsNumeric(b)
    ensures ParseInt(a + "," + b).Ok? && ParseInt(a + "," + b).value == DigitsValue(a + b)
  {
    var s := a + "," + b;
    CommaDropped(a, b);
    assert IsNumeric(a + b);
    DigitsAvoid(a + b, ',');
    ContainsChar(a + b, ',');
    ReplaceAbsent(a + b, ",", "");
    CleanNumberChain(s);
    CleanNumberChain(a + b);
    CleanNumeral(a + b);
    ParseIntOf(s, a + b);
  }

  /** "1,234" reads as 1234. */
  lemma ParseIntThousands(s: string)
    requires s == "1,234"
    ensures ParseInt(s).Ok? && ParseInt(s).value == 1234
  {
    var a, b := "1", "234";
    assert s == a + "," + b;
    ParseIntDropsComma(a, b);
    DigitsOf1234(a + b);
  }

  lemma DigitsOf1234(t: string)
    requires t == "1234"
    ensures AllDigits(t) && DigitsValue(t) == 1234
  {
    var t3, t2, t1 := t[..3], t[..2], t[..1];
    assert t3[..2] == t2 && t2[..1] == t1 && t1[..0] == [];
    assert DigitsValue(t1) == 1;
    assert DigitsValue(t2) == 12;
    assert DigitsValue(t3) == 123;
  }

  /** Removing the commas and the unit word from "<digits> scrobbles" leaves "<digits> ". */
  lemma UnitDropped(d: string)
    requires IsNumeric(d)
    ensures Replace(Replace(d + " scrobbles", ",", ""), "scrobbles", "") == d + " "
  {
    var s := d + " scrobbles";
    assert ',' !in s by {
      DigitsAvoid(d, ',');
    }
    ContainsChar(s, ',');
    ReplaceAbsent(s, ",", "");
    UnitWordRemoved(d);
  }

  /** Removing the unit word from "<digits> scrobbles" leaves "<digits> ". */
  lemma UnitWordRemoved(d: string)
    requires IsNumeric(d)
    ensures Replace(d + " scrobbles", "scrobbles", "") == d + " "
  {
    DigitsAvoid(d, 's');
    assert 's' !in d + " ";
    assert d + " scrobbles" == (d + " ") + "scrobbles";
    ReplaceTrailingWord(d + " ", "scrobbles");
  }

  /** `strip` removes the space after a numeral. */
  lemma TrailingSpaceStripped(d: string)
    requires IsNumeric(d)
    ensures Strip(d + " ") == d
  {
    assert (d + " ")[0] == d[0] && d[0] !in Whitespace;
    assert d[|d| - 1] !in Whitespace;
    RStripTrailing(d, " ", Whitespace);
  }

  /** The unit word is dropped: "<n> scrobbles" reads as `n`. */
  lemma ParseIntScrobbles(n: nat)
    ensures ParseInt(NatToString(n) + " scrobbles").Ok?
    ensures ParseInt(NatToString(n) + " scrobbles").value == n
  {
    var d := NatToString(n);
    CleanNumberChain(d + " scrobbles");
    UnitDropped(d);
    TrailingSpaceStripped(d);
    StripNumeral(d);
    ParseIntOf(d + " scrobbles", d);
  }

  /** `strip` leaves "days <digits> hours" alone and removes the spaces around " <digits> ". */
  lemma DetailStrips(d: string)
    requires IsNumeric(d)
    ensures Strip("days " + d + " hours") == "days " + d + " hours"
    ensures Strip(" " + d + " ") == d
  {
    var s := "days " + d + " hours";
    assert s[0] == 'd' && s[|s| - 1] == 's';
    assert 'd' !in Whitespace && 's' !in Whitespace;
    RStripTrailing(s, [], Whitespace);
    assert s + [] == s;
    var u := " " + d + " ";
    assert u[1..] == d + " " && u[0] in Whitespace;
    TrailingSpaceStripped(d);
  }

  /** The detail of the listening-time fact, "days, <h> hours", reads as `h`. */
  lemma ParseIntDaysHours(h: nat)
    ensures ParseInt("days, " + NatToString(h) + " hours").Ok?
    ensures ParseInt("days, " + NatToString(h) + " hours").value == h
  {
    var d := NatToString(h);
    var s := "days, " + d + " hours";
    assert ',' !in d && 's' !in d by {
      DigitsAvoid(d, ',');
      DigitsAvoid(d, 's');
    }
    CleanNumberChain(s);
    PlainDetail(d, s);
    DetailStrips(d);
    DaysHoursStrips(d);
    ParseIntOf(s, d);
  }

  /** The detail text has neither commas outside its connective nor the unit word "scrobbles". */
  lemma PlainDetail(d: string, s: string)
    requires IsNumeric(d) && ',' !in d && 's' !in d
    requires s == "days, " + d + " hours"
    ensures Replace(Replace(s, ",", ""), "scrobbles", "") == "days " + d + " hours"
  {
    var a, b := "days", " " + d + " hours";
    assert s == a + [','] + b;
    assert ',' !in a && ',' !in b;
    ReplaceCharOnce(a, b, ',');
    var t := "days " + d + " hours";
    assert a + b == t;
    ScrobblesAbsent(d, t);
    ReplaceAbsent(t, "scrobbles", "");
  }

  /** "scrobbles" does not occur in "days <digits> hours". */
  lemma ScrobblesAbsent(d: string, t: string)
    requires IsNumeric(d) && 's' !in d
    requires t == "days " + d + " hours"
    ensures !Contains(t, "scrobbles")
  {
    // the only 's' characters are the last ones of "days" and of "hours"
    var p := "scrobbles";
    var u := " " + d + " hour";
    assert 's' !in u;
    ShortNoContains("s", p);
    NotContainsConcat(u, "s", p);
    var t1 := "s" + (u + "s");
    assert t1[1..] == u + "s";
    assert !StartsWith(t1, p) by {
      assert t1[1] == ' ';
    }
    assert !Contains(t1, p);
    assert t == "day" + t1;
    NotContainsConcat("day", t1, p);
  }

  /** A pattern that occurs neither in `b` nor starting inside `a` does not occur in `a + b`. */
  lemma {:induction false} NotContainsConcat(a: string, b: string, p: string)
    requires p != [] && p[0] !in a
    requires !Contains(b, p)
    ensures !Contains(a + b, p)
    decreases |a|
  {
    if a == [] {
      assert a + b == b;
    } else {
      var s := a + b;
      assert s[0] == a[0] && s[1..] == a[1..] + b;
      assert p[0] !in a[1..] by {
        assert forall i :: 0 <= i < |a[1..]| ==> a[1..][i] == a[i + 1];
      }
      NotContainsConcat(a[1..], b, p);
    }
  }

  lemma {:induction false} ShortNoContains(s: string, p: string)
    requires |s| < |p|
    ensures !Contains(s, p)
    decreases |s|
  {
    if s != [] {
      ShortNoContains(s[1..], p);
    }
  }

  /** The two character-set strips of "days <digits> hours" leave " <digits> ". */
  lemma DaysHoursStrips(d: string)
    requires IsNumeric(d)
    ensures RStrip(LStrip("days " + d + " hours", "days,"), "hours") == " " + d + " "
  {
    var s := "days " + d + " hours";
    assert s == "days" + (" " + d + " hours");
    LStripSkips("days", " " + d + " hours", "days,");
    assert (" " + d + " hours")[0] == ' ' && ' ' !in "days,";
    var v := " " + d + " ";
    assert " " + d + " hours" == v + "hours";
    assert v[|v| - 1] == ' ' && ' ' !in "hours";
    RStripTrailing(v, "hours", "hours");
  }

  // ---------------------------------------------------------------------------
  // Quick facts

  /** The index of the first fact whose text contains `needle`, if any. */
  function FirstFact(facts: seq<QuickFact>, needle: string): (r: Option<nat>)
    ensures r.Some? ==> r.value < |facts| && Contains(facts[r.value].text, needle)
    ensures r.Some? ==> forall j :: 0 <= j < r.value ==> !Contains(facts[j].text, needle)
    ensures r.None? ==> forall j :: 0 <= j < |facts| ==> !Contains(facts[j].text, needle)
    decreases |facts|
  {
    if facts == [] then None
    else if Contains(facts[0].text, needle) then Some(0)
    else match FirstFact(facts[1..], needle)
      case None => None
      case Some(i) => Some(i + 1)
  }

  /** The fact search of `_get_scrobbles_daily_avg` / `_get_listening_time_hours`. */
  function FactWith(page: Page, needle: string): Extracted<QuickFact> {
    match FirstFact(page.quickFacts, needle)
    case None => Err(FactNotFound(needle, |page.quickFacts|))
    case Some(i) => Ok(page.quickFacts[i])
  }

  /** `_get_scrobbles_count`. */
  function ScrobblesCountOf(page: Page): Extracted<nat> {
    var text :- Need(page.headlineTotal, ".report-headline-total");
    ParseInt(text)
  }

  /** `_get_scrobbles_daily_avg`: the value of the first "Average scrobbles" fact. */
  function DailyAvgOf(page: Page): Extracted<nat> {
    var fact :- FactWith(page, AverageNeedle);
    var value :- Need(fact.value, ".quick-fact-data-value");
    ParseInt(value)
  }

  /** The listening-time fact: days in its value, remaining hours in its detail. */
  function ListeningTimeOfFact(fact: QuickFact): Extracted<nat> {
    var dayText :- Need(fact.value, ".quick-fact-data-value");
    var days :- ParseInt(dayText);
    var hourText :- Need(fact.detail, ".quick-fact-data-detail");
    var hours :- ParseInt(hourText);
    Ok(days * 24 + hours)
  }

  /** `_get_listening_time_hours`. */
  function ListeningTimeOf(page: Page): Extracted<nat> {
    var fact :- FactWith(page, ListeningTimeNeedle);
    ListeningTimeOfFact(fact)
  }

  /** The total is the days in hours plus the hour remainder; a remainder below 24 can be read back. */
  lemma ListeningTimeSplits(fact: QuickFact, days: nat, hours: nat)
    requires fact.value.Some? && ParseInt(fact.value.value) == Ok(days)
    requires fact.detail.Some? && ParseInt(fact.detail.value) == Ok(hours)
    ensures ListeningTimeOfFact(fact).Ok? && ListeningTimeOfFact(fact).value == days * 24 + hours
    ensures hours < 24 ==> ListeningTimeOfFact(fact).value / 24 == days
    ensures hours < 24 ==> ListeningTimeOfFact(fact).value % 24 == hours
  {
    if hours < 24 {
      DaysAndHours(days, hours);
    }
  }

  lemma DaysAndHours(days: nat, hours: nat)
    requires hours < 24
    ensures (days * 24 + hours) / 24 == days && (days * 24 + hours) % 24 == hours
  {
  }

  /** `_get_overview_scrobbles` for one category. */
  function OverviewCountOf(page: Page, c: Category): Extracted<nat> {
    var needle := OverviewNeedle(c);
    if needle !in page.overviews then Err(MissingNode(needle))
    else
      var text :- Need(page.overviews[needle], ".top-item-overview__scrobbles");
      ParseInt(text)
  }

  // ---------------------------------------------------------------------------
  // Top lists

  /** Each text parsed with `_int`, in order; the first failure wins. */
  function ParseAll(texts: seq<string>): (r: Extracted<seq<nat>>)
    ensures r.Ok? ==> |r.value| == |texts|
    ensures r.Ok? ==> forall j :: 0 <= j < |texts| ==> ParseInt(texts[j]) == Ok(r.value[j])
    decreases |texts|
  {
    if texts == [] then Ok([])
    else
      var v :- ParseInt(texts[0]);
      var vs :- ParseAll(texts[1..]);
      Ok([v] + vs)
  }

  /** A failed list parse reports the error of its first text that is not a numeral. */
  lemma {:induction false} ParseAllFails(texts: seq<string>) returns (j: nat)
    requires ParseAll(texts).Err?
    ensures j < |texts| && ParseInt(texts[j]).Err? && ParseInt(texts[j]).error == ParseAll(texts).error
    ensures forall k :: 0 <= k < j ==> ParseInt(texts[k]).Ok?
    decreases |texts|
  {
    if ParseInt(texts[0]).Err? {
      j := 0;
    } else {
      assert ParseAll(texts[1..]).Err? && ParseAll(texts[1..]).error == ParseAll(texts).error;
      var i := ParseAllFails(texts[1..]);
      j := i + 1;
      forall k | 1 <= k < j
        ensures ParseInt(texts[k]).Ok?
      {
        assert texts[k] == texts[1..][k - 1];
      }
    }
  }

  /** The index of the first row holding a node of class `needle`, if any. */
  function FirstRow(rows: seq<TopItemsRow>, needle: string): (r: Option<nat>)
    ensures r.Some? ==> r.value < |rows| && needle in rows[r.value].classes
    ensures r.Some? ==> forall j :: 0 <= j < r.value ==> needle !in rows[j].classes
    ensures r.None? ==> forall j :: 0 <= j < |rows| ==> needle !in rows[j].classes
    decreases |rows|
  {
    if rows == [] then None
    else if needle in rows[0].classes then Some(0)
    else match FirstRow(rows[1..], needle)
      case None => None
      case Some(i) => Some(i + 1)
  }

  /** The secondary items: names stripped, paired with the parsed values, no link. */
  function Secondary(names: seq<string>, values: seq<nat>): (r: seq<ThingWithScrobbles>)
    requires |names| == |values|
    ensures |r| == |names|
    ensures forall j :: 0 <= j < |r| ==> r[j] == ThingWithScrobbles(Strip(names[j]), values[j], None)
  {
    seq(|names|, j requires 0 <= j < |names| => ThingWithScrobbles(Strip(names[j]), values[j], None))
  }

  /** The top item of a category, read off its modal. */
  function TopItemOf(page: Page, c: Category): Extracted<ThingWithScrobbles> {
    if TopId(c) !in page.topPanels then Err(MissingNode(TopId(c)))
    else
      var panel := page.topPanels[TopId(c)];
      var header :- Need(panel.header, ".top-item-modal-header");
      var value :- Need(panel.value, ".top-item-modal-data-item-value");
      var link :- Need(panel.link, ".top-item-modal-link-text");
      if !Contains(link.text, ViewNeedle(c)) then Err(ButtonMoved(link.text))
      else
        var scrobbles :- ParseInt(value);
        Ok(ThingWithScrobbles(Strip(header), scrobbles, Some(LastFmRoot + link.href.GetOr("/"))))
  }

  /** The items of an overview: the top item, then the row's names zipped with their parsed values. */
  function RowItems(top: ThingWithScrobbles, row: TopItemsRow): (r: Extracted<seq<ThingWithScrobbles>>)
    ensures r.Ok? ==> |r.value| > 0 && r.value[0] == top
  {
    if |row.names| != |row.values| then Err(LengthMismatch(|row.names|, |row.values|))
    else
      var values :- ParseAll(row.values);
      Ok([top] + Secondary(row.names, values))
  }

  /** `_get_top_overview`: the top item, then the secondary items of the first matching row. */
  function TopOverviewOf(page: Page, c: Category): (r: Extracted<seq<ThingWithScrobbles>>)
    ensures r.Ok? ==> |r.value| > 0 && r.value[0].url.Some?
  {
    var top :- TopItemOf(page, c);
    match FirstRow(page.rows, OverviewNeedle(c))
    case None => Err(TopOverviewNotFound(OverviewNeedle(c)))
    case Some(i) => RowItems(top, page.rows[i])
  }

  /** The cleaning `_get_top_new_thing` applies to the count. */
  function CleanNewCount(s: string): string {
    Strip(Replace(Replace(s, "scrobbles", ""), ",", ""))
  }

  /** `_get_top_new_thing`: the first matching row's new item, or the blank item when its count is not a numeral. */
  function TopNewOf(page: Page, c: Category): Extracted<ThingWithScrobbles> {
    match FirstRow(page.rows, TopNewNeedle(c))
    case None => Err(TopOverviewNotFound(TopNewNeedle(c)))
    case Some(i) =>
      var row := page.rows[i];
      var title :- Need(row.newTitle, ".top-new-item-title");
      var count :- Need(row.newCount, ".top-new-item-count");
      var cleaned := CleanNewCount(count);
      if IsNumeric(cleaned) then Ok(ThingWithScrobbles(Strip(title), DigitsValue(cleaned), None))
      else Ok(ThingWithScrobbles("", 0, None))
  }

  /** The error of a failed extraction. */
  function ErrorOf<T>(x: Extracted<T>): Option<ExtractionError> {
    if x.Err? then Some(x.error) else None
  }

  /**
   * Building the report from its fields, evaluated in the source's order:
   * the first field that fails decides the error.
   */
  function Assemble(
    target: string,
    scrobblesCount: Extracted<nat>, dailyAvg: Extracted<nat>,
    artistsCount: Extracted<nat>, albumsCount: Extracted<nat>, tracksCount: Extracted<nat>,
    artists: Extracted<seq<ThingWithScrobbles>>, albums: Extracted<seq<ThingWithScrobbles>>,
    tracks: Extracted<seq<ThingWithScrobbles>>,
    artistsNew: Extracted<ThingWithScrobbles>, albumsNew: Extracted<ThingWithScrobbles>,
    tracksNew: Extracted<ThingWithScrobbles>, hours: Extracted<nat>): (r: Extracted<ListeningReport>)
    ensures r.Ok? <==> && scrobblesCount.Ok? && dailyAvg.Ok? && artistsCount.Ok? && albumsCount.Ok?
                       && tracksCount.Ok? && artists.Ok? && albums.Ok? && tracks.Ok?
                       && artistsNew.Ok? && albumsNew.Ok? && tracksNew.Ok? && hours.Ok?
    ensures r.Ok? ==> r.value == ListeningReport(target, ReportUrl(target), scrobblesCount.value,
                        dailyAvg.value, artistsCount.value, albumsCount.value, tracksCount.value,
                        artists.value, albums.value, tracks.value,
                        artistsNew.value, albumsNew.value, tracksNew.value, hours.value)
  {
    var firstError :=
      ErrorOf(scrobblesCount).OrElse(ErrorOf(dailyAvg)).OrElse(ErrorOf(artistsCount))
      .OrElse(ErrorOf(albumsCount)).OrElse(ErrorOf(tracksCount)).OrElse(ErrorOf(artists))
      .OrElse(ErrorOf(albums)).OrElse(ErrorOf(tracks)).OrElse(ErrorOf(artistsNew))
      .OrElse(ErrorOf(albumsNew)).OrElse(ErrorOf(tracksNew)).OrElse(ErrorOf(hours));
    match firstError
    case Some(e) => Err(e)
    case None =>
      Ok(ListeningReport(target, ReportUrl(target), scrobblesCount.value, dailyAvg.value,
        artistsCount.value, albumsCount.value, tracksCount.value, artists.value, albums.value,
        tracks.value, artistsNew.value, albumsNew.value, tracksNew.value, hours.value))
  }

  /** `get_listening_report` after the page has been fetched: the fields in the source's order. */
  function ExtractReport(target: string, page: Page): Extracted<ListeningReport> {
    Assemble(target, ScrobblesCountOf(page), DailyAvgOf(page),
      OverviewCountOf(page, Artist), OverviewCountOf(page, Album), OverviewCountOf(page, Track),
      TopOverviewOf(page, Artist), TopOverviewOf(page, Album), TopOverviewOf(page, Track),
      TopNewOf(page, Artist), TopNewOf(page, Album), TopNewOf(page, Track),
      ListeningTimeOf(page))
  }

  /** The error of each field, or none, in the order the source evaluates the fields. */
  function FieldErrors(
    scrobblesCount: Extracted<nat>, dailyAvg: Extracted<nat>,
    artistsCount: Extracted<nat>, albumsCount: Extracted<nat>, tracksCount: Extracted<nat>,
    artists: Extracted<seq<ThingWithScrobbles>>, albums: Extracted<seq<ThingWithScrobbles>>,
    tracks: Extracted<seq<ThingWithScrobbles>>,
    artistsNew: Extracted<ThingWithScrobbles>, albumsNew: Extracted<ThingWithScrobbles>,
    tracksNew: Extracted<ThingWithScrobbles>, hours: Extracted<nat>): seq<Option<ExtractionError>>
  {
    [ErrorOf(scrobblesCount), ErrorOf(dailyAvg), ErrorOf(artistsCount), ErrorOf(albumsCount),
     ErrorOf(tracksCount), ErrorOf(artists), ErrorOf(albums), ErrorOf(tracks),
     ErrorOf(artistsNew), ErrorOf(albumsNew), ErrorOf(tracksNew), ErrorOf(hours)]
  }

  /**
   * The report fails with the error of the first field that fails, in the
   * source's keyword order: that is the exception `get_listening_report`
   * raises first.
   */
  lemma AssembleFirstError(
    target: string,
    scrobblesCount: Extracted<nat>, dailyAvg: Extracted<nat>,
    artistsCount: Extracted<nat>, albumsCount: Extracted<nat>, tracksCount: Extracted<nat>,
    artists: Extracted<seq<ThingWithScrobbles>>, albums: Extracted<seq<ThingWithScrobbles>>,
    tracks: Extracted<seq<ThingWithScrobbles>>,
    artistsNew: Extracted<ThingWithScrobbles>, albumsNew: Extracted<ThingWithScrobbles>,
    tracksNew: Extracted<ThingWithScrobbles>, hours: Extracted<nat>, i: nat)
    requires i < 12
    requires FieldErrors(scrobblesCount, dailyAvg, artistsCount, albumsCount, tracksCount, artists,
      albums, tracks, artistsNew, albumsNew, tracksNew, hours)[i].Some?
    requires forall j :: 0 <= j < i ==> FieldErrors(scrobblesCount, dailyAvg, artistsCount, albumsCount,
      tracksCount, artists, albums, tracks, artistsNew, albumsNew, tracksNew, hours)[j].None?
    ensures Assemble(target, scrobblesCount, dailyAvg, artistsCount, albumsCount, tracksCount, artists,
      albums, tracks, artistsNew, albumsNew, tracksNew, hours)
      == Err(FieldErrors(scrobblesCount, dailyAvg, artistsCount, albumsCount, tracksCount, artists,
      albums, tracks, artistsNew, albumsNew, tracksNew, hours)[i].value)
  {
    var errs := FieldErrors(scrobblesCount, dailyAvg, artistsCount, albumsCount, tracksCount, artists,
      albums, tracks, artistsNew, albumsNew, tracksNew, hours);
    assert errs[0] == ErrorOf(scrobblesCount);
    assert errs[1] == ErrorOf(dailyAvg);
    assert errs[2] == ErrorOf(artistsCount);
    assert errs[3] == ErrorOf(albumsCount);
    assert errs[4] == ErrorOf(tracksCount);
    assert errs[5] == ErrorOf(artists);
    assert errs[6] == ErrorOf(albums);
    assert errs[7] == ErrorOf(tracks);
    assert errs[8] == ErrorOf(artistsNew);
    assert errs[9] == ErrorOf(albumsNew);
    assert errs[10] == ErrorOf(tracksNew);
    assert errs[11] == ErrorOf(hours);
  }

  // ---------------------------------------------------------------------------
  // What extraction promises

  /** The top overview fails when the modal's link no longer reads "View … page". */
  lemma TopOverviewButtonMoved(page: Page, c: Category)
    requires TopId(c) in page.topPanels
    requires var p := page.topPanels[TopId(c)];
             p.header.Some? && p.value.Some? && p.link.Some? && !Contains(p.link.value.text, ViewNeedle(c))
    ensures TopOverviewOf(page, c) == Err(ButtonMoved(page.topPanels[TopId(c)].link.value.text))
  {
  }

  /** The top overview fails when the first matching row has more names than values or fewer. */
  lemma TopOverviewLengthMismatch(page: Page, c: Category)
    requires TopItemOf(page, c).Ok?
    requires FirstRow(page.rows, OverviewNeedle(c)).Some?
    requires var row := page.rows[FirstRow(page.rows, OverviewNeedle(c)).value];
             |row.names| != |row.values|
    ensures TopOverviewOf(page, c).Err? && TopOverviewOf(page, c).error.LengthMismatch?
  {
  }

  /** The top overview fails when no row carries the category's overview class. */
  lemma TopOverviewNoRow(page: Page, c: Category)
    requires TopItemOf(page, c).Ok?
    requires forall j :: 0 <= j < |page.rows| ==> OverviewNeedle(c) !in page.rows[j].classes
    ensures TopOverviewOf(page, c) == Err(TopOverviewNotFound(OverviewNeedle(c)))
  {
  }

  /**
   * A top item read off its modal: the modal has all three nodes, its link
   * still reads "View … page", and the item is the stripped header with the
   * parsed play count, linked to "https://www.last.fm" + the href (or "/").
   */
  lemma TopItemShape(page: Page, c: Category)
    requires TopItemOf(page, c).Ok?
    ensures TopId(c) in page.topPanels
    ensures var panel := page.topPanels[TopId(c)];
            var top := TopItemOf(page, c).value;
            && panel.header.Some? && panel.value.Some? && panel.link.Some?
            && Contains(panel.link.value.text, ViewNeedle(c))
            && top.name == Strip(panel.header.value)
            && ParseInt(panel.value.value) == Ok(top.scrobbles)
            && top.url == Some(LastFmRoot + panel.link.value.href.GetOr("/"))
  {
  }

  /** A successful row: equally many names and values, every value a numeral. */
  lemma RowItemsOk(top: ThingWithScrobbles, row: TopItemsRow)
    requires RowItems(top, row).Ok?
    ensures |row.names| == |row.values| && ParseAll(row.values).Ok?
    ensures RowItems(top, row).value == [top] + Secondary(row.names, ParseAll(row.values).value)
  {
  }

  /** The items after the top item, one per name with the value beside it. */
  lemma ItemsAfterTop(top: ThingWithScrobbles, names: seq<string>, values: seq<nat>, things: seq<ThingWithScrobbles>)
    requires |names| == |values| && things == [top] + Secondary(names, values)
    ensures |things| == 1 + |names|
    ensures forall j :: 1 <= j < |things| ==> things[j] == ThingWithScrobbles(Strip(names[j - 1]), values[j - 1], None)
  {
    var rest := Secondary(names, values);
    forall j | 1 <= j < |things|
      ensures things[j] == ThingWithScrobbles(Strip(names[j - 1]), values[j - 1], None)
    {
      assert things[j] == rest[j - 1];
    }
  }

  /**
   * The items of a row are the top item followed by one unlinked item per
   * name, in order: the stripped name with the `_int` of the value beside it.
   */
  lemma RowItemsShape(top: ThingWithScrobbles, row: TopItemsRow)
    requires RowItems(top, row).Ok?
    ensures var things := RowItems(top, row).value;
            && |things| == 1 + |row.names| == 1 + |row.values|
            && things[0] == top
            && (forall j :: 1 <= j < |things| ==> things[j].url == None && things[j].name == Strip(row.names[j - 1]))
            && (forall j :: 1 <= j < |things| ==> ParseInt(row.values[j - 1]) == Ok(things[j].scrobbles))
  {
    RowItemsOk(top, row);
    var values := ParseAll(row.values).value;
    var things := RowItems(top, row).value;
    ItemsAfterTop(top, row.names, values, things);
  }

  /**
   * A successful top overview consists of the top item read off the modal
   * and the items of the first row carrying the overview class.
   */
  lemma TopOverviewShape(page: Page, c: Category)
    requires TopOverviewOf(page, c).Ok?
    ensures TopItemOf(page, c).Ok? && FirstRow(page.rows, OverviewNeedle(c)).Some?
    ensures var row := page.rows[FirstRow(page.rows, OverviewNeedle(c)).value];
            TopOverviewOf(page, c) == RowItems(TopItemOf(page, c).value, row)
  {
  }

  /** A new-item count that does not clean to a numeral gives the blank item. */
  lemma TopNewFallback(page: Page, c: Category)
    requires FirstRow(page.rows, TopNewNeedle(c)).Some?
    requires var row := page.rows[FirstRow(page.rows, TopNewNeedle(c)).value];
             row.newTitle.Some? && row.newCount.Some? && !IsNumeric(CleanNewCount(row.newCount.value))
    ensures TopNewOf(page, c) == Ok(ThingWithScrobbles("", 0, None))
  {
  }

  /** A count "<n> scrobbles" gives the stripped title with `n` plays. */
  lemma TopNewCount(page: Page, c: Category, n: nat)
    requires FirstRow(page.rows, TopNewNeedle(c)).Some?
    requires var row := page.rows[FirstRow(page.rows, TopNewNeedle(c)).value];
             row.newTitle.Some? && row.newCount == Some(NatToString(n) + " scrobbles")
    ensures TopNewOf(page, c)
         == Ok(ThingWithScrobbles(Strip(page.rows[FirstRow(page.rows, TopNewNeedle(c)).value].newTitle.value), n, None))
  {
    NewCountNumeral(NatToString(n));
  }

  /** The new-item count "<digits> scrobbles" cleans to its numeral. */
  lemma NewCountNumeral(d: string)
    requires IsNumeric(d)
    ensures CleanNewCount(d + " scrobbles") == d
  {
    UnitWordRemoved(d);
    DigitsAvoid(d, ',');
    assert ',' !in d + " ";
    ContainsChar(d + " ", ',');
    ReplaceAbsent(d + " ", ",", "");
    TrailingSpaceStripped(d);
  }

  /** A report read off a page belongs to its target, cites the target's page and has non-empty top lists. */
  lemma ExtractReportWellFormed(target: string, page: Page)
    requires ExtractReport(target, page).Ok?
    ensures var r := ExtractReport(target, page).value;
            && WellFormed(r)
            && r.user == target
            && r.url == ReportUrl(target)
            && r.artists[0].url.Some? && r.albums[0].url.Some? && r.tracks[0].url.Some?
  {
  }

  // ---------------------------------------------------------------------------
  // The loops

  /** An index holding the first match is what `FirstFact` finds. */
  lemma FirstFactIs(facts: seq<QuickFact>, needle: string, i: nat)
    requires i < |facts| && Contains(facts[i].text, needle)
    requires forall j :: 0 <= j < i ==> !Contains(facts[j].text, needle)
    ensures FirstFact(facts, needle) == Some(i)
  {
    var r := FirstFact(facts, needle);
    assert r.Some? ==> !(r.value < i) && !(i < r.value);
  }

  /** The `for … else` fact search: the first fact whose text contains `needle`. */
  method FindFact(facts: seq<QuickFact>, needle: string) returns (r: Option<nat>)
    ensures r == FirstFact(facts, needle)
  {
    for i := 0 to |facts|
      invariant forall j :: 0 <= j < i ==> !Contains(facts[j].text, needle)
    {
      if Contains(facts[i].text, needle) {
        FirstFactIs(facts, needle, i);
        return Some(i);
      }
    }
    return None;
  }

  /** An index holding the first matching row is what `FirstRow` finds. */
  lemma FirstRowIs(rows: seq<TopItemsRow>, needle: string, i: nat)
    requires i < |rows| && needle in rows[i].classes
    requires forall j :: 0 <= j < i ==> needle !in rows[j].classes
    ensures FirstRow(rows, needle) == Some(i)
  {
    var r := FirstRow(rows, needle);
    assert r.Some? ==> !(r.value < i) && !(i < r.value);
  }

  /** The row loop of `_get_top_overview` and `_get_top_new_thing`: skip rows without `needle`. */
  method FindRow(rows: seq<TopItemsRow>, needle: string) returns (r: Option<nat>)
    ensures r == FirstRow(rows, needle)
  {
    for i := 0 to |rows|
      invariant forall j :: 0 <= j < i ==> needle !in rows[j].classes
    {
      if needle in rows[i].classes {
        FirstRowIs(rows, needle, i);
        return Some(i);
      }
    }
    return None;
  }

  /** `_get_top_overview` as the source runs it: append the top item, then one item per zipped pair. */
  method TopOverview(page: Page, c: Category) returns (r: Extracted<seq<ThingWithScrobbles>>)
    ensures r == TopOverviewOf(page, c)
  {
    var top := TopItemOf(page, c);
    if top.Err? {
      return Err(top.error);
    }
    var things := [top.value];
    var found := FindRow(page.rows, OverviewNeedle(c));
    if found.None? {
      return Err(TopOverviewNotFound(OverviewNeedle(c)));
    }
    var row := page.rows[found.value];
    if |row.names| != |row.values| {
      return Err(LengthMismatch(|row.names|, |row.values|));
    }
    var values := ParseAll(row.values);
    if values.Err? {
      return Err(values.error);
    }
    things := AppendItems(things, row.names, values.value);
    return Ok(things);
  }

  /** The `zip` loop: one unlinked item per name, appended in order. */
  method AppendItems(init: seq<ThingWithScrobbles>, names: seq<string>, values: seq<nat>)
    returns (things: seq<ThingWithScrobbles>)
    requires |names| == |values|
    ensures things == init + Secondary(names, values)
  {
    things := init;
    for j := 0 to |names|
      invariant things == init + Secondary(names[..j], values[..j])
    {
      things := things + [ThingWithScrobbles(Strip(names[j]), values[j], None)];
    }
    assert names[..|names|] == names;
    assert values[..|names|] == values;
  }
}
