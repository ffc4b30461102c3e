/** Worked examples of qualified display names for concrete last.fm links. */
module NamingExamples {
  import opened Wrappers
  import opened PyStr
  import opened Records
  import opened Naming

  lemma RadioheadLinkParts(url: string)
    requires url == "https://www.last.fm/music/Radiohead/OK+Computer"
    ensures url == MusicLinkChars + ("Radiohead/OK" + "+" + "Computer")
  {
  }

  /** The cleaned Radiohead link: prefix gone, '+' turned into a space. */
  lemma CleanedRadioheadLink(url: string)
    requires url == "https://www.last.fm/music/Radiohead/OK+Computer"
    ensures CleanedLink(url) == "Radiohead/OK" + " " + "Computer"
  {
    var a, b := "Radiohead/OK", "Computer";
    RadioheadLinkParts(url);
    assert '%' !in a && '%' !in b && '+' !in a && '+' !in b;
    CleanedFullPrefixLink(a + "+" + b);
    ReplaceOnePlus(a, b);
  }

  /** "OK Computer" linked to .../music/Radiohead/OK+Computer is shown as "Radiohead — OK Computer". */
  lemma QualifiedNameRadiohead(url: string, name: string)
    requires url == "https://www.last.fm/music/Radiohead/OK+Computer"
    requires name == "OK Computer"
    ensures QualifiedThingName(ThingWithScrobbles(name, 0, Some(url))) == "Radiohead" + NameSeparator + name
  {
    CleanedRadioheadLink(url);
    assert "Radiohead/OK" + " " + "Computer" == "Radiohead" + "/" + name;
    QualifiedNameWithLink(name, 0, url, "Radiohead", name);
  }

  lemma AltJLinkParts(url: string)
    requires url == "https://www.last.fm/music/alt-J/_/Breezeblocks"
    ensures url == MusicLinkChars + "alt" + ("-J" + "/" + "_/Breezeblocks")
  {
  }

  /** The cleaned alt-J link: the prefix set also eats the artist's leading "alt". */
  lemma CleanedAltJLink(url: string)
    requires url == "https://www.last.fm/music/alt-J/_/Breezeblocks"
    ensures CleanedLink(url) == "-J" + "/" + "_/Breezeblocks"
  {
    var a, t := "alt", "-J" + "/" + "_/Breezeblocks";
    AltJLinkParts(url);
    assert '%' !in a && '%' !in t && '+' !in t;
    CleanedPrefixAndSetLink(a, t);
    ContainsChar(t, '+');
    ReplaceAbsent(t, "+", " ");
  }

  /**
   * Because `lstrip` removes a character set, an artist whose name begins with
   * letters of that set loses them: "alt-J" is shown as "-J".
   */
  lemma QualifiedNameStripsLeadingLetters(url: string, name: string)
    requires url == "https://www.last.fm/music/alt-J/_/Breezeblocks"
    requires name == "Breezeblocks"
    ensures QualifiedThingName(ThingWithScrobbles(name, 0, Some(url))) == "-J" + NameSeparator + name
  {
    CleanedAltJLink(url);
    QualifiedNameWithLink(name, 0, url, "-J", "_/Breezeblocks");
  }
}
