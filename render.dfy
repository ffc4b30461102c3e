/**
 * `ListeningReport.to_str`: one user's leaderboard entry, either as
 * plain-text ("ASCII") or as Telegram markdown, with the optional
 * lower-casing and scheme truncation applied afterwards.
 */
module Render {
  import opened Wrappers
  import opened PyStr
  import opened Records
  import opened Naming

  /** The indentation of a Telegram detail line. */
  const TelegramPrefix: string := "   "

  /** What `truncate_scheme` removes from the finished text. */
  const SchemeAndWww: string := "https://www."

  /** The leaderboard positions `to_str` is given: overall, per scrobbles, artists, albums and tracks, and the board size. */
  datatype Positions = Positions(overall: nat, scrobbles: nat, artists: nat, albums: nat, tracks: nat, count: nat)

  /** An optional link as an f-string shows it: a missing link reads "None". */
  function UrlText(url: Option<string>): string {
    match url
    case Some(u) => u
    case None => "None"
  }

  /** `f"#{pos}".rjust(len(f"#{n}"))`. */
  function RankField(pos: nat, n: nat): string {
    RJust("#" + NatToString(pos), |"#" + NatToString(n)|)
  }

  /** The tail of the intro line: total listening hours and the daily average. */
  function Summary(r: ListeningReport): string {
    " \U{2014} \U{03A3}" + NatToString(r.listeningTimeHours) + "h; " + NatToString(r.scrobblesDailyAvg) + "s/d  "
  }

  /** The ASCII intro's `f"{pos}. "`. */
  function Intro(p: Positions): string {
    NatToString(p.overall) + ". "
  }

  /** The ASCII indentation: as many spaces as the intro's position marker is wide. */
  function AsciiPrefix(p: Positions): string {
    Repeat(' ', |Intro(p)|)
  }

  /** `f"{scrobbles_count} scrobbles"`, whose width the other count labels are padded to. */
  function ScrobblesLabel(r: ListeningReport): string {
    NatToString(r.scrobblesCount) + " scrobbles"
  }

  /** The left column of an ASCII detail line: the count, padded, then its rank field. */
  function AsciiLabel(count: nat, noun: string, width: nat, pos: nat, n: nat, prefix: string): string {
    Indent(LJust(NatToString(count) + noun, width) + " (" + RankField(pos, n) + ") : ", prefix)
  }

  /** With `all_the_links`, a further line holding the item's link, indented by `width` spaces. */
  function AsciiLink(show: bool, url: Option<string>, width: nat): string {
    if show then "\n" + Indent("<" + UrlText(url) + ">", Repeat(' ', width)) else ""
  }

  /** The ASCII intro: position marker, user, listening hours and daily average. */
  function AsciiIntro(r: ListeningReport, p: Positions): string {
    Intro(p) + r.user + Summary(r)
  }

  /** The ASCII report link line, followed by an empty line. */
  function AsciiUrl(r: ListeningReport, p: Positions): string {
    Indent("<" + r.url + ">", AsciiPrefix(p)) + "\n"
  }

  /** The ASCII scrobble line: the scrobble label and its rank field. */
  function AsciiScrobbles(r: ListeningReport, p: Positions): string {
    Indent(ScrobblesLabel(r), AsciiPrefix(p)) + " (" + RankField(p.scrobbles, p.count) + ")"
  }

  /** The left columns of the artist, album and track lines. */
  function ArtistsColumn(r: ListeningReport, p: Positions): string {
    AsciiLabel(r.artistsCount, " artists", |ScrobblesLabel(r)|, p.artists, p.count, AsciiPrefix(p))
  }

  function AlbumsColumn(r: ListeningReport, p: Positions): string {
    AsciiLabel(r.albumsCount, " albums", |ScrobblesLabel(r)|, p.albums, p.count, AsciiPrefix(p))
  }

  function TracksColumn(r: ListeningReport, p: Positions): string {
    AsciiLabel(r.tracksCount, " tracks", |ScrobblesLabel(r)|, p.tracks, p.count, AsciiPrefix(p))
  }

  /** An ASCII item line: the left column, the item, then its optional link line. */
  function AsciiItem(column: string, item: string, link: string): string {
    column + item + link
  }

  /**
   * The six ASCII basket entries: intro, report link, scrobbles, and the top
   * artist, album and track. All three link lines are indented by the width of
   * the artist line's left column.
   */
  function AsciiBasket(r: ListeningReport, b: Behaviour, p: Positions): (basket: seq<string>)
    requires WellFormed(r)
    ensures |basket| == 6
  {
    [ AsciiIntro(r, p),
      AsciiUrl(r, p),
      AsciiScrobbles(r, p),
      AsciiItem(ArtistsColumn(r, p), r.artists[0].name, AsciiLink(b.allTheLinks, r.artists[0].url, |ArtistsColumn(r, p)|)),
      AsciiItem(AlbumsColumn(r, p), QualifiedThingName(r.albums[0]),
        AsciiLink(b.allTheLinks, r.albums[0].url, |ArtistsColumn(r, p)|)),
      AsciiItem(TracksColumn(r, p), QualifiedThingName(r.tracks[0]),
        AsciiLink(b.allTheLinks, r.tracks[0].url, |ArtistsColumn(r, p)|)) ]
  }

  /** A Telegram item: a markdown link with `all_the_links`, the bare name otherwise. */
  function TelegramItem(name: string, url: Option<string>, show: bool): string {
    if show then "[" + name + "](" + UrlText(url) + ")" else name
  }

  /** A Telegram detail line: the count, its unpadded rank, then the item. */
  function TelegramDetail(count: nat, noun: string, pos: nat, item: string): string {
    TelegramPrefix + NatToString(count) + noun + " (#" + NatToString(pos) + "): " + item
  }

  /** The Telegram intro: position, the user linked to the report, hours and daily average. */
  function TelegramIntro(r: ListeningReport, p: Positions): string {
    NatToString(p.overall) + ". [" + r.user + "](" + r.url + ")" + Summary(r)
  }

  /** The Telegram scrobble line, in bold. */
  function TelegramScrobbles(r: ListeningReport): string {
    TelegramPrefix + "**" + NatToString(r.scrobblesCount) + " scrobbles**"
  }

  /** The five Telegram basket entries: linked intro, bold scrobbles, top artist, album and track. */
  function TelegramBasket(r: ListeningReport, b: Behaviour, p: Positions): (basket: seq<string>)
    requires WellFormed(r)
    ensures |basket| == 5
  {
    var links := b.allTheLinks;
    [ TelegramIntro(r, p),
      TelegramScrobbles(r),
      TelegramDetail(r.artistsCount, " artists", p.artists, TelegramItem(r.artists[0].name, r.artists[0].url, links)),
      TelegramDetail(r.albumsCount, " albums", p.albums,
        TelegramItem(QualifiedThingName(r.albums[0]), r.albums[0].url, links)),
      TelegramDetail(r.tracksCount, " tracks", p.tracks,
        TelegramItem(QualifiedThingName(r.tracks[0]), r.tracks[0].url, links)) ]
  }

  function Basket(r: ListeningReport, b: Behaviour, p: Positions): seq<string>
    requires WellFormed(r)
  {
    match b.format
    case Ascii => AsciiBasket(r, b, p)
    case Telegram => TelegramBasket(r, b, p)
  }

  /** How many leading basket entries `lowercase` leaves alone. */
  function KeptLines(f: FormatType): nat {
    match f
    case Ascii => 3
    case Telegram => 1
  }

  /** The basket after the optional lower-casing of every entry past the kept ones. */
  function BasketLines(r: ListeningReport, b: Behaviour, p: Positions): seq<string>
    requires WellFormed(r)
  {
    var basket := Basket(r, b, p);
    var k := KeptLines(b.format);
    if b.lowercase then basket[..k] + LowerAll(basket[k..]) else basket
  }

  /** `text.replace("https://www.", "")`. */
  function Truncated(text: string): string {
    Replace(text, SchemeAndWww, "")
  }

  /** What `to_str` returns. */
  function ReportText(r: ListeningReport, b: Behaviour, p: Positions): string
    requires WellFormed(r)
  {
    var text := Join(BasketLines(r, b, p), "\n");
    if b.truncateScheme then Truncated(text) else text
  }

  /** Appending six entries one by one to an empty list gives the list of the six. */
  lemma AppendsSix<T>(a: T, b: T, c: T, d: T, e: T, f: T)
    ensures [] + [a] + [b] + [c] + [d] + [e] + [f] == [a, b, c, d, e, f]
  {
  }

  /** Appending five entries one by one to an empty list gives the list of the five. */
  lemma AppendsFive<T>(a: T, b: T, c: T, d: T, e: T)
    ensures [] + [a] + [b] + [c] + [d] + [e] == [a, b, c, d, e]
  {
  }

  /** The ASCII arm of `to_str`: six appends to an empty basket. */
  method AsciiLines(r: ListeningReport, b: Behaviour, p: Positions) returns (basket: seq<string>)
    requires WellFormed(r)
    ensures basket == AsciiBasket(r, b, p)
  {
    var d2, d3, d4 := ArtistsColumn(r, p), AlbumsColumn(r, p), TracksColumn(r, p);
    var album, track := QualifiedThingName(r.albums[0]), QualifiedThingName(r.tracks[0]);
    basket := [];
    basket := basket + [AsciiIntro(r, p)];
    basket := basket + [AsciiUrl(r, p)];
    basket := basket + [AsciiScrobbles(r, p)];
    basket := basket + [AsciiItem(d2, r.artists[0].name, AsciiLink(b.allTheLinks, r.artists[0].url, |d2|))];
    basket := basket + [AsciiItem(d3, album, AsciiLink(b.allTheLinks, r.albums[0].url, |d2|))];
    basket := basket + [AsciiItem(d4, track, AsciiLink(b.allTheLinks, r.tracks[0].url, |d2|))];
    AppendsSix(AsciiIntro(r, p), AsciiUrl(r, p), AsciiScrobbles(r, p),
      AsciiItem(d2, r.artists[0].name, AsciiLink(b.allTheLinks, r.artists[0].url, |d2|)),
      AsciiItem(d3, album, AsciiLink(b.allTheLinks, r.albums[0].url, |d2|)),
      AsciiItem(d4, track, AsciiLink(b.allTheLinks, r.tracks[0].url, |d2|)));
  }

  /** The Telegram arm of `to_str`: five appends to an empty basket. */
  method TelegramLines(r: ListeningReport, b: Behaviour, p: Positions) returns (basket: seq<string>)
    requires WellFormed(r)
    ensures basket == TelegramBasket(r, b, p)
  {
    var links := b.allTheLinks;
    basket := [];
    basket := basket + [TelegramIntro(r, p)];
    basket := basket + [TelegramScrobbles(r)];
    var artist := TelegramItem(r.artists[0].name, r.artists[0].url, links);
    basket := basket + [TelegramDetail(r.artistsCount, " artists", p.artists, artist)];
    var album := QualifiedThingName(r.albums[0]);
    basket := basket + [TelegramDetail(r.albumsCount, " albums", p.albums, TelegramItem(album, r.albums[0].url, links))];
    var track := QualifiedThingName(r.tracks[0]);
    basket := basket + [TelegramDetail(r.tracksCount, " tracks", p.tracks, TelegramItem(track, r.tracks[0].url, links))];
    AppendsFive(TelegramIntro(r, p), TelegramScrobbles(r),
      TelegramDetail(r.artistsCount, " artists", p.artists, artist),
      TelegramDetail(r.albumsCount, " albums", p.albums, TelegramItem(album, r.albums[0].url, links)),
      TelegramDetail(r.tracksCount, " tracks", p.tracks, TelegramItem(track, r.tracks[0].url, links)));
  }

  /** `to_str`: build the basket for the format, then join it and post-process the text. */
  method ToStr(r: ListeningReport, b: Behaviour, p: Positions) returns (text: string)
    requires WellFormed(r)
    ensures text == ReportText(r, b, p)
  {
    var basket: seq<string>;
    var keep: nat;
    match b.format {
      case Ascii =>
        basket := AsciiLines(r, b, p);
        keep := 3;
      case Telegram =>
        basket := TelegramLines(r, b, p);
        keep := 1;
    }
    if b.lowercase {
      basket := basket[..keep] + LowerAll(basket[keep..]);
    }
    text := Join(basket, "\n");
    if b.truncateScheme {
      text := Replace(text, SchemeAndWww, "");
    }
  }

  // ---------------------------------------------------------------------------
  // Layout

  lemma NoLineBreakConcat(a: string, b: string)
    requires NoLineBreak(a) && NoLineBreak(b)
    ensures NoLineBreak(a + b)
  {
    forall i | 0 <= i < |a + b|
      ensures !IsLineBreak((a + b)[i])
    {
      if i < |a| {
        assert (a + b)[i] == a[i];
      } else {
        assert (a + b)[i] == b[i - |a|];
      }
    }
  }

  lemma NumeralNoLineBreak(n: nat)
    ensures NoLineBreak(NatToString(n))
  {
  }

  lemma SpacesNoLineBreak(n: nat)
    ensures NoLineBreak(Repeat(' ', n))
  {
  }

  /**
   * A rank field is never narrower than `#n`; for a position within the
   * board it is exactly that wide. It ends in `#pos`, with spaces before.
   */
  lemma RankFieldWidth(pos: nat, n: nat)
    ensures var f := RankField(pos, n);
      |f| >= |"#" + NatToString(n)|
      && (pos <= n ==> |f| == |"#" + NatToString(n)|)
      && f[|f| - |"#" + NatToString(pos)|..] == "#" + NatToString(pos)
      && forall i :: 0 <= i < |f| - |"#" + NatToString(pos)| ==> f[i] == ' '
  {
    if pos <= n {
      NatToStringLengthMonotone(pos, n);
    }
  }

  lemma RankFieldNoLineBreak(pos: nat, n: nat)
    ensures NoLineBreak(RankField(pos, n))
  {
    var f := RankField(pos, n);
    var s := "#" + NatToString(pos);
    RankFieldWidth(pos, n);
    assert f == f[..|f| - |s|] + s;
    assert f[..|f| - |s|] == Repeat(' ', |f| - |s|);
    SpacesNoLineBreak(|f| - |s|);
    NoLineBreakConcat("#", NatToString(pos));
    NoLineBreakConcat(f[..|f| - |s|], s);
  }

  /** A count label padded to `width` is one line starting with a digit. */
  lemma PaddedCountIsOneLine(count: nat, noun: string, width: nat)
    requires NoLineBreak(noun)
    ensures var j := LJust(NatToString(count) + noun, width);
      NoLineBreak(j) && j != [] && j[0] == NatToString(count)[0]
  {
    var c := NatToString(count) + noun;
    var j := LJust(c, width);
    NoLineBreakConcat(NatToString(count), noun);
    assert j == c + j[|c|..];
    assert j[|c|..] == Repeat(' ', |j| - |c|);
    SpacesNoLineBreak(|j| - |c|);
    NoLineBreakConcat(c, j[|c|..]);
  }

  /** An ASCII left column's text before indentation is one line starting with a digit. */
  lemma LabelIsOneLine(count: nat, noun: string, width: nat, pos: nat, n: nat)
    requires NoLineBreak(noun)
    ensures var s := LJust(NatToString(count) + noun, width) + " (" + RankField(pos, n) + ") : ";
      NoLineBreak(s) && s != [] && s[0] !in Whitespace
  {
    var j := LJust(NatToString(count) + noun, width);
    PaddedCountIsOneLine(count, noun, width);
    RankFieldNoLineBreak(pos, n);
    LiteralsOneLine();
    OneLineJoin(j, " (", RankField(pos, n), ") : ");
    DigitNotWhitespace(NatToString(count)[0]);
  }

  lemma LiteralsOneLine()
    ensures NoLineBreak(" (") && NoLineBreak(") : ")
  {
  }

  /** Four one-line pieces make one line, which starts where the first piece does. */
  lemma OneLineJoin(a: string, b: string, c: string, d: string)
    requires NoLineBreak(a) && NoLineBreak(b) && NoLineBreak(c) && NoLineBreak(d) && a != []
    ensures NoLineBreak(a + b + c + d) && (a + b + c + d)[0] == a[0]
  {
    NoLineBreakConcat(a, b);
    NoLineBreakConcat(a + b, c);
    NoLineBreakConcat(a + b + c, d);
  }

  lemma DigitNotWhitespace(c: char)
    requires IsDigit(c)
    ensures c !in Whitespace
  {
  }

  /** So `indent` puts the prefix once in front of it. */
  lemma AsciiLabelShape(count: nat, noun: string, width: nat, pos: nat, n: nat, prefix: string)
    requires NoLineBreak(noun)
    ensures AsciiLabel(count, noun, width, pos, n, prefix)
      == prefix + (LJust(NatToString(count) + noun, width) + " (" + RankField(pos, n) + ") : ")
  {
    var s := LJust(NatToString(count) + noun, width) + " (" + RankField(pos, n) + ") : ";
    LabelIsOneLine(count, noun, width, pos, n);
    IndentOneLine(s, prefix);
  }

  lemma NounsAreOneLine()
    ensures NoLineBreak(" artists") && NoLineBreak(" albums") && NoLineBreak(" tracks")
  {
  }

  /** Where the last of five pieces starts. */
  lemma LastPiece(p: string, a: string, b: string, c: string, d: string)
    ensures var t := p + (a + b + c + d);
      |t| == |p| + |a| + |b| + |c| + |d| && t[|p| + |a| + |b| + |c|..] == d
  {
    var t := p + (a + b + c + d);
    assert t == (p + a + b + c) + d;
  }

  /** The width of an ASCII left column whose count label fits the scrobble label, for a position within the board. */
  lemma AsciiLabelWidth(count: nat, noun: string, r: ListeningReport, pos: nat, n: nat, prefix: string)
    requires NoLineBreak(noun) && |noun| <= |" scrobbles"| && count <= r.scrobblesCount && pos <= n
    ensures var a := AsciiLabel(count, noun, |ScrobblesLabel(r)|, pos, n, prefix);
      var col := |prefix| + |ScrobblesLabel(r)| + 2 + |"#" + NatToString(n)|;
      |a| == col + 4 && a[col..] == ") : "
  {
    var j := LJust(NatToString(count) + noun, |ScrobblesLabel(r)|);
    var f := RankField(pos, n);
    AsciiLabelShape(count, noun, |ScrobblesLabel(r)|, pos, n, prefix);
    PieceWidths(count, noun, r, pos, n);
    LastPiece(prefix, j, " (", f, ") : ");
  }

  /** The padded count label is as wide as the scrobble label, and the rank field as wide as `#n`. */
  lemma PieceWidths(count: nat, noun: string, r: ListeningReport, pos: nat, n: nat)
    requires |noun| <= |" scrobbles"| && count <= r.scrobblesCount && pos <= n
    ensures |LJust(NatToString(count) + noun, |ScrobblesLabel(r)|)| == |ScrobblesLabel(r)|
    ensures |RankField(pos, n)| == |"#" + NatToString(n)|
  {
    NatToStringLengthMonotone(count, r.scrobblesCount);
    RankFieldWidth(pos, n);
  }

  /** The ASCII scrobble line ends in its rank field's ")" at column `col`. */
  lemma AsciiScrobblesColumn(r: ListeningReport, p: Positions)
    requires p.scrobbles <= p.count
    ensures var col := |AsciiPrefix(p)| + |ScrobblesLabel(r)| + 2 + |"#" + NatToString(p.count)|;
      |AsciiScrobbles(r, p)| == col + 1 && AsciiScrobbles(r, p)[col] == ')'
  {
    NumeralNoLineBreak(r.scrobblesCount);
    NoLineBreakConcat(NatToString(r.scrobblesCount), " scrobbles");
    IndentOneLine(ScrobblesLabel(r), AsciiPrefix(p));
    RankFieldWidth(p.scrobbles, p.count);
  }

  /** The width at which the ASCII detail lines put their rank field's closing parenthesis. */
  function RankColumn(r: ListeningReport, p: Positions): nat {
    |AsciiPrefix(p)| + |ScrobblesLabel(r)| + 2 + |"#" + NatToString(p.count)|
  }

  lemma ArtistsColumnWidth(r: ListeningReport, p: Positions)
    requires r.artistsCount <= r.scrobblesCount && p.artists <= p.count
    ensures |ArtistsColumn(r, p)| == RankColumn(r, p) + 4 && ArtistsColumn(r, p)[RankColumn(r, p)..] == ") : "
  {
    NounsAreOneLine();
    AsciiLabelWidth(r.artistsCount, " artists", r, p.artists, p.count, AsciiPrefix(p));
  }

  lemma AlbumsColumnWidth(r: ListeningReport, p: Positions)
    requires r.albumsCount <= r.scrobblesCount && p.albums <= p.count
    ensures |AlbumsColumn(r, p)| == RankColumn(r, p) + 4 && AlbumsColumn(r, p)[RankColumn(r, p)..] == ") : "
  {
    NounsAreOneLine();
    AsciiLabelWidth(r.albumsCount, " albums", r, p.albums, p.count, AsciiPrefix(p));
  }

  lemma TracksColumnWidth(r: ListeningReport, p: Positions)
    requires r.tracksCount <= r.scrobblesCount && p.tracks <= p.count
    ensures |TracksColumn(r, p)| == RankColumn(r, p) + 4 && TracksColumn(r, p)[RankColumn(r, p)..] == ") : "
  {
    NounsAreOneLine();
    AsciiLabelWidth(r.tracksCount, " tracks", r, p.tracks, p.count, AsciiPrefix(p));
  }

  /**
   * With counts no larger than the scrobble count and positions within the
   * board, the four ASCII detail lines line up: the scrobble line's closing
   * parenthesis and the ") : " ending each of the artist, album and track
   * left columns all sit at the same column, so the three item names start
   * together (each item line is its left column followed by the name).
   */
  lemma AsciiColumnsAligned(r: ListeningReport, p: Positions)
    requires r.artistsCount <= r.scrobblesCount && r.albumsCount <= r.scrobblesCount
    requires r.tracksCount <= r.scrobblesCount
    requires p.scrobbles <= p.count && p.artists <= p.count && p.albums <= p.count && p.tracks <= p.count
    ensures var col := RankColumn(r, p);
      |AsciiScrobbles(r, p)| == col + 1 && AsciiScrobbles(r, p)[col] == ')'
      && |ArtistsColumn(r, p)| == col + 4 && ArtistsColumn(r, p)[col..] == ") : "
      && |AlbumsColumn(r, p)| == col + 4 && AlbumsColumn(r, p)[col..] == ") : "
      && |TracksColumn(r, p)| == col + 4 && TracksColumn(r, p)[col..] == ") : "
  {
    AsciiScrobblesColumn(r, p);
    ArtistsColumnWidth(r, p);
    AlbumsColumnWidth(r, p);
    TracksColumnWidth(r, p);
  }

  /** The ASCII report link sits on its own line, indented to the position marker's width, with a blank line after it. */
  lemma AsciiUrlShape(r: ListeningReport, p: Positions)
    requires NoLineBreak(r.url)
    ensures AsciiUrl(r, p) == AsciiPrefix(p) + "<" + r.url + ">" + "\n"
    ensures |AsciiPrefix(p)| == |NatToString(p.overall)| + 2
  {
    var s := "<" + r.url + ">";
    NoLineBreakConcat("<", r.url);
    NoLineBreakConcat("<" + r.url, ">");
    assert s[0] == '<';
    IndentOneLine(s, AsciiPrefix(p));
  }

  /** An item without a link still gets a link line with `all_the_links`: it reads "<None>" (ASCII) or "(None)" (Telegram). */
  lemma MissingLinkShown(name: string, width: nat)
    ensures AsciiLink(true, None, width) == "\n" + Repeat(' ', width) + "<None>"
    ensures TelegramItem(name, None, true) == "[" + name + "](None)"
  {
    assert "<" + UrlText(None) + ">" == "<None>";
    IndentOneLine("<None>", Repeat(' ', width));
  }

  // ---------------------------------------------------------------------------
  // Post-processing

  /**
   * With `lowercase`, the text is the kept entries (3 in ASCII, 1 in
   * Telegram) joined unchanged, then the remaining entries joined and
   * lower-cased.
   */
  lemma LowercaseText(r: ListeningReport, b: Behaviour, p: Positions)
    requires WellFormed(r) && b.lowercase && !b.truncateScheme
    ensures var basket := Basket(r, b, p);
      var k := if b.format == Ascii then 3 else 1;
      ReportText(r, b, p) == Join(basket[..k], "\n") + "\n" + Lower(Join(basket[k..], "\n"))
  {
    var basket := Basket(r, b, p);
    var k := KeptLines(b.format);
    assert Lower("\n") == "\n";
    LowerJoin(basket[k..], "\n");
    JoinAppend(basket[..k], LowerAll(basket[k..]), "\n");
  }

  /** Without `lowercase` the basket is joined as built. */
  lemma PlainText(r: ListeningReport, b: Behaviour, p: Positions)
    requires WellFormed(r) && !b.lowercase && !b.truncateScheme
    ensures ReportText(r, b, p) == Join(Basket(r, b, p), "\n")
  {
  }

  /** `truncate_scheme` changes nothing when the text holds no "https://www.". */
  lemma TruncationWithoutScheme(r: ListeningReport, b: Behaviour, p: Positions)
    requires WellFormed(r) && b.truncateScheme
    requires !Contains(Join(BasketLines(r, b, p), "\n"), SchemeAndWww)
    ensures ReportText(r, b, p) == Join(BasketLines(r, b, p), "\n")
  {
    ReplaceAbsent(Join(BasketLines(r, b, p), "\n"), SchemeAndWww, "");
  }

  /** A text made of the scheme and a rest that holds no further scheme loses exactly the scheme. */
  lemma TruncatedPrefix(t: string)
    requires !Contains(t, SchemeAndWww)
    ensures Truncated(SchemeAndWww + t) == t
  {
    ReplaceHead(SchemeAndWww, t, "");
    ReplaceAbsent(t, SchemeAndWww, "");
  }

  /**
   * A user name without "https://www." followed by the report path keeps
   * clear of the scheme: an occurrence cannot straddle the name and the
   * path, because the path starts with "/l" and the scheme has no "l" and
   * does not end in "/".
   */
  lemma {:induction false} UserPathClear(u: string)
    requires !Contains(u, SchemeAndWww)
    ensures !Contains(u + "/listening-report/week", SchemeAndWww)
    decreases |u|
  {
    var c := "/listening-report/week";
    var s := u + c;
    if u == [] {
      assert s == c;
      NotContainsHead(c, SchemeAndWww);
    } else {
      assert !StartsWith(s, SchemeAndWww) by {
        if |u| >= |SchemeAndWww| {
          assert s[..|SchemeAndWww|] == u[..|SchemeAndWww|];
        } else if |u| + 1 < |SchemeAndWww| {
          assert s[|u| + 1] == 'l';
          assert 'l' !in SchemeAndWww;
        } else {
          assert s[|u|] == '/';
        }
      }
      assert s[1..] == u[1..] + c;
      UserPathClear(u[1..]);
    }
  }

  /** The scheme, a prefix without an "h" and a rest without the scheme lose exactly the scheme. */
  lemma TruncatedAfterPrefix(a: string, t: string)
    requires 'h' !in a && !Contains(t, SchemeAndWww)
    ensures Truncated(SchemeAndWww + (a + t)) == a + t
  {
    ReplaceHead(SchemeAndWww, a + t, "");
    ReplaceSkips(a, t, SchemeAndWww, "");
    ReplaceAbsent(t, SchemeAndWww, "");
  }

  /** A report link loses exactly its "https://www." for any user name that does not hold one. */
  lemma TruncatedReportUrl(u: string)
    requires !Contains(u, SchemeAndWww)
    ensures Truncated(SchemeAndWww + "last.fm/user/" + u + "/listening-report/week")
      == "last.fm/user/" + u + "/listening-report/week"
  {
    var a, c := "last.fm/user/", "/listening-report/week";
    assert !Contains(u + c, SchemeAndWww) by {
      UserPathClear(u);
    }
    assert Truncated(SchemeAndWww + (a + (u + c))) == a + (u + c) by {
      TruncatedAfterPrefix(a, u + c);
    }
    assert SchemeAndWww + (a + (u + c)) == SchemeAndWww + a + u + c;
  }

  /**
   * `replace` is a single left-to-right pass, so removing one occurrence can
   * join its neighbours into a new one: truncation does not guarantee that
   * the output is free of "https://www.".
   */
  lemma TruncationCanLeaveScheme(text: string)
    requires text == "h" + "ttps://w" + SchemeAndWww + "ww."
    ensures Truncated(text) == SchemeAndWww
    ensures Contains(Truncated(text), SchemeAndWww)
  {
    var a := "ttps://w";
    assert text[1..] == a + (SchemeAndWww + "ww.");
    assert !StartsWith(text, SchemeAndWww) by {
      assert text[9] != SchemeAndWww[9];
    }
    ReplaceSkips(a, SchemeAndWww + "ww.", SchemeAndWww, "");
    ReplaceHead(SchemeAndWww, "ww.", "");
    NotContainsHead("ww.", SchemeAndWww);
    ReplaceAbsent("ww.", SchemeAndWww, "");
    assert "h" + a + "ww." == SchemeAndWww;
    ContainsAt(SchemeAndWww, SchemeAndWww, 0);
  }
}
