/**
 * The qualified display name of an album or track: the artist segment of its
 * last.fm link, an em dash, then the item's own name.
 */
module Naming {
  import opened Wrappers
  import opened PyStr
  import opened Records

  /**
   * The argument of the `lstrip` call. `lstrip` treats it as a SET of
   * characters, not as a prefix: h t p s : / w . l a f m u i c.
   */
  const MusicLinkChars: string := "https://www.last.fm/music/"

  /** The separator between artist and item: space, U+2014 EM DASH, space. */
  const NameSeparator: string := " \U{2014} "

  /** `s.split("/", maxsplit=1)[0]`: the text before the first slash (all of `s` if it has none). */
  function BeforeSlash(s: string): (r: string)
    ensures '/' !in r
    ensures |r| <= |s| && s[..|r|] == r
    ensures |r| < |s| ==> s[|r|] == '/'
    decreases |s|
  {
    if s == [] || s[0] == '/' then [] else [s[0]] + BeforeSlash(s[1..])
  }

  /** The link after percent-decoding, stripping the prefix character set, and turning '+' into spaces. */
  function CleanedLink(url: string): string {
    Replace(LStrip(Unquote(url), MusicLinkChars), "+", " ")
  }

  /** `_qualified_thing_name`: the bare name without a link, else "<segment> — <name>". */
  function QualifiedThingName(thing: ThingWithScrobbles): string {
    match thing.url
    case None => thing.name
    case Some(u) => BeforeSlash(CleanedLink(u)) + NameSeparator + thing.name
  }

  /** The segment is exactly the text before the first slash of the cleaned link. */
  lemma {:induction false} BeforeSlashOf(seg: string, rest: string)
    requires '/' !in seg
    ensures BeforeSlash(seg + "/" + rest) == seg
    ensures BeforeSlash(seg) == seg
    decreases |seg|
  {
    if seg != [] {
      BeforeSlashOf(seg[1..], rest);
      assert (seg + "/" + rest)[1..] == seg[1..] + "/" + rest;
      assert [seg[0]] + seg[1..] == seg;
    }
  }

  /** Without a link the name is shown as it is. */
  lemma QualifiedNameWithoutLink(name: string, scrobbles: nat)
    ensures QualifiedThingName(ThingWithScrobbles(name, scrobbles, None)) == name
  {
  }

  /**
   * With a link the result is always "<seg> — <name>" where `seg` holds no slash
   * and is the cleaned link up to (not including) its first slash.
   */
  lemma QualifiedNameWithLink(name: string, scrobbles: nat, url: string, seg: string, rest: string)
    requires '/' !in seg
    requires CleanedLink(url) == seg + "/" + rest || CleanedLink(url) == seg
    ensures QualifiedThingName(ThingWithScrobbles(name, scrobbles, Some(url))) == seg + NameSeparator + name
  {
    BeforeSlashOf(seg, rest);
  }

  /** Replacing a single character distributes over concatenation. */
  lemma {:induction false} ReplaceCharConcat(a: string, b: string, c: char, rep: string)
    ensures Replace(a + b, [c], rep) == Replace(a, [c], rep) + Replace(b, [c], rep)
    decreases |a|
  {
    if a != [] {
      var s := a + b;
      assert s[0] == a[0] && s[1..] == a[1..] + b;
      assert StartsWith(s, [c]) <==> a[0] == c;
      assert StartsWith(a, [c]) <==> a[0] == c;
      ReplaceCharConcat(a[1..], b, c, rep);
      if a[0] == c {
        assert Replace(s, [c], rep) == rep + Replace(s[1..], [c], rep);
        assert Replace(a, [c], rep) == rep + Replace(a[1..], [c], rep);
      } else {
        assert Replace(s, [c], rep) == [s[0]] + Replace(s[1..], [c], rep);
        assert Replace(a, [c], rep) == [a[0]] + Replace(a[1..], [c], rep);
      }
    } else {
      assert a + b == b;
    }
  }

  /** A link made of characters of the prefix set and then `t` is cleaned down to `t` with '+' as spaces. */
  lemma CleanedMusicLink(p: string, t: string)
    requires forall i :: 0 <= i < |p| ==> p[i] in MusicLinkChars
    requires '%' !in p && '%' !in t
    requires t == [] || t[0] !in MusicLinkChars
    ensures CleanedLink(p + t) == Replace(t, "+", " ")
  {
    UnquotePlain(p + t);
    LStripSkips(p, t, MusicLinkChars);
  }

  /** A link that is exactly the prefix text followed by `t` cleans down to `t` with '+' as spaces. */
  lemma CleanedFullPrefixLink(t: string)
    requires '%' !in t
    requires t != [] && t[0] !in MusicLinkChars
    ensures CleanedLink(MusicLinkChars + t) == Replace(t, "+", " ")
  {
    assert '%' !in MusicLinkChars;
    UnquotePlain(MusicLinkChars + t);
    LStripSkips(MusicLinkChars, t, MusicLinkChars);
  }

  /** Letters of the prefix set right after the prefix are stripped as well. */
  lemma CleanedPrefixAndSetLink(a: string, t: string)
    requires forall i :: 0 <= i < |a| ==> a[i] in MusicLinkChars
    requires '%' !in a && '%' !in t
    requires t != [] && t[0] !in MusicLinkChars
    ensures CleanedLink(MusicLinkChars + a + t) == Replace(t, "+", " ")
  {
    assert '%' !in MusicLinkChars;
    assert MusicLinkChars + a + t == MusicLinkChars + (a + t);
    UnquotePlain(MusicLinkChars + (a + t));
    LStripSkips(MusicLinkChars, a + t, MusicLinkChars);
    LStripSkips(a, t, MusicLinkChars);
  }

  /** One '+' between two plus-free texts becomes one space. */
  lemma ReplaceOnePlus(a: string, b: string)
    requires '+' !in a && '+' !in b
    ensures Replace(a + "+" + b, "+", " ") == a + " " + b
  {
    ReplaceCharConcat(a + "+", b, '+', " ");
    ReplaceCharConcat(a, "+", '+', " ");
    ContainsChar(a, '+');
    ContainsChar(b, '+');
    ReplaceAbsent(a, "+", " ");
    ReplaceAbsent(b, "+", " ");
    assert Replace("+", "+", " ") == " ";
  }
}
