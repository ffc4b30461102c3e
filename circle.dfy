/**
 * `make_circle_report`: the whole leaderboard. An optional header comes
 * first; then every report, in descending order of listening hours plus
 * scrobbles, is rendered with its overall position and its rank on each of
 * the four statistics; the pieces are joined with newlines.
 */
module Circle {
  import opened PyStr
  import opened Records
  import opened Ranking
  import opened Render

  /** Every report can be rendered. */
  predicate AllWellFormed(rs: seq<ListeningReport>) {
    forall i :: 0 <= i < |rs| ==> WellFormed(rs[i])
  }

  /** The lines a configured header contributes: none for an empty header. */
  function HeaderLines(b: Behaviour): seq<string> {
    if b.header == "" then []
    else match b.format
      case Ascii => [b.header, Repeat('-', |b.header|), ""]
      case Telegram => [b.header + "\n"]
  }

  /** The leaderboard order: the stable ascending sort on the composite key, reversed. */
  function Leaderboard(reports: seq<ListeningReport>): seq<ListeningReport> {
    Reversed(InsertionSort(reports, CompositeKey))
  }

  /** The positions handed to `to_str` for the report at 1-based leaderboard position `pos`. */
  function PositionsOf(report: ListeningReport, reports: seq<ListeningReport>, pos: nat): Positions {
    Positions(pos,
      RankSpec(report, reports, ScrobblesKey),
      RankSpec(report, reports, ArtistsKey),
      RankSpec(report, reports, AlbumsKey),
      RankSpec(report, reports, TracksKey),
      |reports|)
  }

  /** One leaderboard entry: the rendered report and a trailing newline. */
  function EntryText(report: ListeningReport, reports: seq<ListeningReport>, b: Behaviour, pos: nat): string
    requires WellFormed(report)
  {
    ReportText(report, b, PositionsOf(report, reports, pos)) + "\n"
  }

  /** The entries for `order`, numbered from 1. */
  function Entries(order: seq<ListeningReport>, reports: seq<ListeningReport>, b: Behaviour): seq<string>
    requires AllWellFormed(order)
  {
    seq(|order|, i requires 0 <= i < |order| => EntryText(order[i], reports, b, i + 1))
  }

  /** A reordering of well-formed reports is well-formed. */
  lemma PermutationWellFormed(s: seq<ListeningReport>, t: seq<ListeningReport>)
    requires AllWellFormed(s) && multiset(t) == multiset(s)
    ensures AllWellFormed(t)
  {
    forall i | 0 <= i < |t|
      ensures WellFormed(t[i])
    {
      assert t[i] in multiset(s);
      var j :| 0 <= j < |s| && s[j] == t[i];
    }
  }

  /** The leaderboard holds exactly the reports, each as often, with composite keys that never increase. */
  lemma LeaderboardOrder(reports: seq<ListeningReport>)
    ensures multiset(Leaderboard(reports)) == multiset(reports)
    ensures |Leaderboard(reports)| == |reports|
    ensures forall i, j :: 0 <= i < j < |reports| ==>
              CompositeKey(Leaderboard(reports)[i]) >= CompositeKey(Leaderboard(reports)[j])
  {
    var s := InsertionSort(reports, CompositeKey);
    ReversedMultiset(s);
    ReversedSortedDescends(s, CompositeKey);
  }

  lemma LeaderboardWellFormed(reports: seq<ListeningReport>)
    requires AllWellFormed(reports)
    ensures AllWellFormed(Leaderboard(reports))
  {
    LeaderboardOrder(reports);
    PermutationWellFormed(reports, Leaderboard(reports));
  }

  /** The lines `make_circle_report` joins: the header lines, then one entry per report. */
  function CircleLines(reports: seq<ListeningReport>, b: Behaviour): seq<string>
    requires AllWellFormed(reports)
  {
    LeaderboardWellFormed(reports);
    HeaderLines(b) + Entries(Leaderboard(reports), reports, b)
  }

  /** What `make_circle_report` returns. */
  function CircleReport(reports: seq<ListeningReport>, b: Behaviour): string
    requires AllWellFormed(reports)
  {
    Join(CircleLines(reports, b), "\n")
  }

  // ---------------------------------------------------------------------------
  // What the leaderboard promises

  /** Joining the header lines: ASCII underlines the header and leaves a blank line; Telegram adds a newline. */
  lemma HeaderText(b: Behaviour)
    requires b.header != ""
    ensures b.format == Ascii ==> Join(HeaderLines(b), "\n") == b.header + "\n" + Repeat('-', |b.header|) + "\n"
    ensures b.format == Telegram ==> Join(HeaderLines(b), "\n") == b.header + "\n"
  {
    if b.format == Ascii {
      var h := HeaderLines(b);
      assert h[1..][1..] == [""];
      assert Join(h[1..], "\n") == Repeat('-', |b.header|) + "\n" + "";
    }
  }

  /** Without reports the leaderboard is the header block alone, and the empty text when there is no header. */
  lemma NoReports(b: Behaviour)
    ensures b.header == "" ==> CircleReport([], b) == ""
    ensures b.header != "" && b.format == Ascii ==>
              CircleReport([], b) == b.header + "\n" + Repeat('-', |b.header|) + "\n"
    ensures b.header != "" && b.format == Telegram ==> CircleReport([], b) == b.header + "\n"
  {
    assert CircleLines([], b) == HeaderLines(b);
    if b.header != "" {
      HeaderText(b);
    }
  }

  /**
   * An empty header adds nothing; otherwise the header block comes first and
   * one more newline separates it from the entries.
   */
  lemma HeaderPlacement(reports: seq<ListeningReport>, b: Behaviour)
    requires AllWellFormed(reports) && reports != []
    ensures AllWellFormed(Leaderboard(reports))
    ensures var entries := Join(Entries(Leaderboard(reports), reports, b), "\n");
            && (b.header == "" ==> CircleReport(reports, b) == entries)
            && (b.header != "" ==> CircleReport(reports, b) == Join(HeaderLines(b), "\n") + "\n" + entries)
  {
    LeaderboardWellFormed(reports);
    var entries := Entries(Leaderboard(reports), reports, b);
    if b.header == "" {
      assert CircleLines(reports, b) == entries;
    } else {
      JoinAppend(HeaderLines(b), entries, "\n");
    }
  }

  /** Every entry ends in a newline. */
  lemma EntryEndsInNewline(report: ListeningReport, reports: seq<ListeningReport>, b: Behaviour, pos: nat)
    requires WellFormed(report)
    ensures var e := EntryText(report, reports, b, pos);
            e != [] && e[|e| - 1] == '\n'
  {
  }

  /** One entry per report: the `i`-th is the report at leaderboard index `i`, rendered at position `i + 1`. */
  lemma EntriesShape(reports: seq<ListeningReport>, b: Behaviour, i: nat)
    requires AllWellFormed(reports) && i < |reports|
    ensures AllWellFormed(Leaderboard(reports)) && |Leaderboard(reports)| == |reports|
    ensures var entries := Entries(Leaderboard(reports), reports, b);
            |entries| == |reports| && entries[i] == EntryText(Leaderboard(reports)[i], reports, b, i + 1)
  {
    LeaderboardWellFormed(reports);
    LeaderboardOrder(reports);
  }

  /**
   * Every report on the leaderboard is handed its position, the board size,
   * and four statistic ranks in 1..n.
   */
  lemma EntryPositions(reports: seq<ListeningReport>, i: nat)
    requires i < |reports|
    ensures |Leaderboard(reports)| == |reports|
    ensures var p := PositionsOf(Leaderboard(reports)[i], reports, i + 1);
            && 1 <= p.scrobbles <= |reports| && 1 <= p.artists <= |reports|
            && 1 <= p.albums <= |reports| && 1 <= p.tracks <= |reports|
            && p.overall == i + 1 && p.count == |reports|
  {
    LeaderboardOrder(reports);
    var x := Leaderboard(reports)[i];
    assert x in multiset(reports);
    RankBounds(x, reports, ScrobblesKey);
    RankBounds(x, reports, ArtistsKey);
    RankBounds(x, reports, AlbumsKey);
    RankBounds(x, reports, TracksKey);
  }

  /** With distinct reports, the leaderboard position of each entry is its `_rank` on the composite key. */
  lemma LeaderboardPositionIsRank(reports: seq<ListeningReport>, i: nat)
    requires Distinct(reports) && i < |reports|
    ensures |Leaderboard(reports)| == |reports|
    ensures RankSpec(Leaderboard(reports)[i], reports, CompositeKey) == i + 1
  {
    ReversedPositionIsRank(reports, CompositeKey, i);
  }

  /** Two users: the one with the higher composite key is listed first. */
  lemma TwoUsersOrder(a: ListeningReport, b: ListeningReport)
    requires CompositeKey(a) < CompositeKey(b)
    ensures Leaderboard([a, b]) == [b, a]
  {
    var s := InsertionSort([a, b], CompositeKey);
    assert multiset(s) == multiset{a, b};
    assert s[0] in multiset(s) && s[1] in multiset(s);
    assert s == [a, b];
  }

  // ---------------------------------------------------------------------------
  // The loop

  /** Appending the next element of `s` to `head + s[..i]` gives `head + s[..i + 1]`. */
  lemma AppendNext<T>(lines: seq<T>, head: seq<T>, s: seq<T>, i: nat, x: T)
    requires i < |s| && lines == head + s[..i] && x == s[i]
    ensures lines + [x] == head + s[..i + 1]
  {
    assert s[..i + 1] == s[..i] + [s[i]];
  }

  /** The header appends of `make_circle_report`. */
  method AppendHeader(b: Behaviour) returns (lines: seq<string>)
    ensures lines == HeaderLines(b)
  {
    lines := [];
    if b.header != "" {
      match b.format {
        case Ascii =>
          lines := lines + [b.header];
          lines := lines + [Repeat('-', |b.header|)];
          lines := lines + [""];
        case Telegram =>
          lines := lines + [b.header + "\n"];
      }
    }
  }

  /** The body of the report loop: rank the report on each statistic, render it, add the newline. */
  method Entry(report: ListeningReport, reports: seq<ListeningReport>, b: Behaviour, pos: nat) returns (entry: string)
    requires WellFormed(report)
    ensures entry == EntryText(report, reports, b, pos)
  {
    var scrobblesPos := Rank(report, reports, ScrobblesKey);
    var artistsPos := Rank(report, reports, ArtistsKey);
    var albumsPos := Rank(report, reports, AlbumsKey);
    var tracksPos := Rank(report, reports, TracksKey);
    var text := ToStr(report, b, Positions(pos, scrobblesPos, artistsPos, albumsPos, tracksPos, |reports|));
    entry := text + "\n";
  }

  /** The report at leaderboard index `i` is the one `i` places from the top of the ascending sort. */
  lemma LeaderboardAt(reports: seq<ListeningReport>, i: nat)
    requires i < |reports|
    ensures |InsertionSort(reports, CompositeKey)| == |Leaderboard(reports)| == |reports|
    ensures InsertionSort(reports, CompositeKey)[|reports| - 1 - i] == Leaderboard(reports)[i]
  {
  }

  /** Entry `i` of the leaderboard, as the loop renders it. */
  lemma EntryAt(reports: seq<ListeningReport>, b: Behaviour, i: nat, entry: string)
    requires AllWellFormed(reports) && i < |reports|
    requires AllWellFormed(Leaderboard(reports))
    requires entry == EntryText(Leaderboard(reports)[i], reports, b, i + 1)
    ensures |Entries(Leaderboard(reports), reports, b)| == |reports|
    ensures entry == Entries(Leaderboard(reports), reports, b)[i]
  {
  }

  /**
   * The report loop of `make_circle_report`: walk the reversed stable sort
   * with a counter started at 1 and append each report's entry to `head`.
   */
  method AppendEntries(head: seq<string>, reports: seq<ListeningReport>, b: Behaviour) returns (lines: seq<string>)
    requires AllWellFormed(reports)
    ensures AllWellFormed(Leaderboard(reports))
    ensures lines == head + Entries(Leaderboard(reports), reports, b)
  {
    LeaderboardWellFormed(reports);
    var sorted := InsertionSort(reports, CompositeKey);
    var n := |sorted|;
    ghost var entries := Entries(Leaderboard(reports), reports, b);
    lines := head;
    assert lines == head + entries[..0];
    for i := 0 to n
      invariant lines == head + entries[..i]
    {
      LeaderboardAt(reports, i);
      var entry := Entry(sorted[n - 1 - i], reports, b, i + 1);
      EntryAt(reports, b, i, entry);
      AppendNext(lines, head, entries, i, entry);
      lines := lines + [entry];
    }
    assert entries[..n] == entries;
  }

  /**
   * `make_circle_report` as the source runs it: append the header lines and
   * then the entries, and join everything with newlines.
   */
  method MakeCircleReport(reports: seq<ListeningReport>, b: Behaviour) returns (text: string)
    requires AllWellFormed(reports)
    ensures text == CircleReport(reports, b)
  {
    var lines := AppendHeader(b);
    lines := AppendEntries(lines, reports, b);
    text := Join(lines, "\n");
  }
}
