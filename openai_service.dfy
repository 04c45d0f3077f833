/**
 * The text side of the explanation service: the exactly-three guard in front
 * of the language-model call, the splitting of the model's answer into its
 * three sections, and the builders of the messages sent to subscribers.
 * The model call itself is an oracle: the answer text, or None when the
 * call fails.
 */
module OpenAiService {
  import opened Wrappers

  /** One verse descriptor handed to the explanation service. */
  datatype VerseRef = VerseRef(surah: int, surahName: string, verse: int)

  /** The marker the model is asked to put between its three sections. */
  const SectionSeparator: string := "---SECTION_SEPARATOR---"

  // ---------------------------------------------------------------------
  // Whitespace stripping, as Python's argument-less str.strip does it.
  // ---------------------------------------------------------------------

  /** The characters Python's str.isspace accepts. */
  predicate IsSpace(c: char)
  {
    ('\U{9}' <= c <= '\U{D}') || ('\U{1C}' <= c <= '\U{20}') || c == '\U{85}' || c == '\U{A0}'
    || c == '\U{1680}' || ('\U{2000}' <= c <= '\U{200A}') || c == '\U{2028}' || c == '\U{2029}'
    || c == '\U{202F}' || c == '\U{205F}' || c == '\U{3000}'
  }

  /** A string with no whitespace at either end. */
  predicate Stripped(s: string)
  {
    |s| == 0 || (!IsSpace(s[0]) && !IsSpace(s[|s| - 1]))
  }

  /** The length of the run of whitespace that starts the string. */
  function LeadingSpaces(s: string): (n: nat)
    ensures n <= |s|
  {
    if |s| > 0 && IsSpace(s[0]) then 1 + LeadingSpaces(s[1..]) else 0
  }

  /** The length of the run of whitespace that ends the string. */
  function TrailingSpaces(s: string): (n: nat)
    ensures n <= |s|
  {
    if |s| > 0 && IsSpace(s[|s| - 1]) then 1 + TrailingSpaces(s[..|s| - 1]) else 0
  }

  /** The leading run is all whitespace and is followed by a character that is not. */
  lemma {:induction false} LeadingSpacesRun(s: string)
    ensures forall i :: 0 <= i < LeadingSpaces(s) ==> IsSpace(s[i])
    ensures LeadingSpaces(s) < |s| ==> !IsSpace(s[LeadingSpaces(s)])
  {
    if |s| > 0 && IsSpace(s[0]) {
      LeadingSpacesRun(s[1..]);
      forall i | 1 <= i < LeadingSpaces(s)
        ensures IsSpace(s[i])
      {
        assert s[i] == s[1..][i - 1];
      }
    }
  }

  /** The trailing run is all whitespace and is preceded by a character that is not. */
  lemma {:induction false} TrailingSpacesRun(s: string)
    ensures forall i :: |s| - TrailingSpaces(s) <= i < |s| ==> IsSpace(s[i])
    ensures TrailingSpaces(s) < |s| ==> !IsSpace(s[|s| - TrailingSpaces(s) - 1])
  {
    if |s| > 0 && IsSpace(s[|s| - 1]) {
      TrailingSpacesRun(s[..|s| - 1]);
      forall i | |s| - TrailingSpaces(s) <= i < |s| - 1
        ensures IsSpace(s[i])
      {
        assert s[i] == s[..|s| - 1][i];
      }
    }
  }

  /** str.lstrip(): the string without its leading whitespace. */
  function StripLeft(s: string): string
  {
    s[LeadingSpaces(s)..]
  }

  /** str.rstrip(): the string without its trailing whitespace. */
  function StripRight(s: string): string
  {
    s[..|s| - TrailingSpaces(s)]
  }

  /** str.strip(): the string without whitespace at either end. */
  function Strip(s: string): (r: string)
    ensures Stripped(r)
  {
    var l := StripLeft(s);
    LeadingSpacesRun(s);
    TrailingSpacesRun(l);
    var r := StripRight(l);
    assert |r| > 0 ==> r[0] == l[0] == s[LeadingSpaces(s)];
    assert |r| > 0 ==> r[|r| - 1] == l[|l| - TrailingSpaces(l) - 1];
    r
  }

  /** A strip has no whitespace at either end. */
  lemma StripIsStripped(s: string)
    ensures Stripped(Strip(s))
  {
    var l := StripLeft(s);
    LeadingSpacesRun(s);
    TrailingSpacesRun(l);
    var r := StripRight(l);
    if |r| > 0 {
      assert r[0] == l[0] == s[LeadingSpaces(s)];
      assert r[|r| - 1] == l[|l| - TrailingSpaces(l) - 1];
    }
  }

  /** Only whitespace is removed: the strip is the middle of the string, between two runs of whitespace. */
  lemma StripDropsOnlySpaces(s: string)
    ensures var i := LeadingSpaces(s);
      i + |Strip(s)| <= |s| && Strip(s) == s[i..i + |Strip(s)|]
      && (forall k :: 0 <= k < i ==> IsSpace(s[k]))
      && (forall k :: i + |Strip(s)| <= k < |s| ==> IsSpace(s[k]))
  {
    var i := LeadingSpaces(s);
    var l := StripLeft(s);
    var n := |l| - TrailingSpaces(l);
    assert l == s[i..] && Strip(s) == l[..n] && |Strip(s)| == n;
    assert l[..n] == s[i..i + n];
    LeadingSpacesRun(s);
    TrailingSpacesRun(l);
    forall k | i + n <= k < |s|
      ensures IsSpace(s[k])
    {
      assert s[k] == l[k - i];
    }
  }

  /** Stripping twice changes nothing more. */
  lemma StripIdempotent(s: string)
    ensures Strip(Strip(s)) == Strip(s)
  {
    StripIsStripped(s);
    StripOfStripped(Strip(s));
  }

  /** A string with no whitespace at either end is its own strip. */
  lemma StripOfStripped(t: string)
    requires Stripped(t)
    ensures StripLeft(t) == t && StripRight(t) == t && Strip(t) == t
  {
    assert StripLeft(t) == t;
  }

  /** A strip is empty exactly when the string is all whitespace. */
  lemma StripEmptyIffBlank(s: string)
    ensures Strip(s) == "" <==> forall k :: 0 <= k < |s| ==> IsSpace(s[k])
  {
    StripDropsOnlySpaces(s);
    StripIsStripped(s);
    LeadingSpacesRun(s);
  }

  // ---------------------------------------------------------------------
  // str.split(sep) and str.join.
  // ---------------------------------------------------------------------

  /**
   * Split `s` on `sep` scanning left to right, as str.split(sep) does;
   * `cur` is the piece collected so far.
   */
  function SplitFrom(s: string, sep: string, cur: string): (pieces: seq<string>)
    requires |sep| > 0
    ensures |pieces| >= 1
    decreases |s|
  {
    if |s| == 0 then [cur]
    else if sep <= s then [cur] + SplitFrom(s[|sep|..], sep, "")
    else SplitFrom(s[1..], sep, cur + [s[0]])
  }

  /** str.split(sep) for a non-empty separator. */
  function Split(s: string, sep: string): (pieces: seq<string>)
    requires |sep| > 0
    ensures |pieces| >= 1
  {
    SplitFrom(s, sep, "")
  }

  /** sep.join(pieces). */
  function Join(pieces: seq<string>, sep: string): string
  {
    if |pieces| == 0 then ""
    else if |pieces| == 1 then pieces[0]
    else pieces[0] + sep + Join(pieces[1..], sep)
  }

  lemma {:induction false} JoinSplitFrom(s: string, sep: string, cur: string)
    requires |sep| > 0
    ensures Join(SplitFrom(s, sep, cur), sep) == cur + s
    decreases |s|
  {
    if |s| == 0 {
    } else if sep <= s {
      JoinSplitFrom(s[|sep|..], sep, "");
      var rest := SplitFrom(s[|sep|..], sep, "");
      assert ([cur] + rest)[1..] == rest;
      assert s == sep + s[|sep|..];
    } else {
      JoinSplitFrom(s[1..], sep, cur + [s[0]]);
      assert s == [s[0]] + s[1..];
    }
  }

  /** Joining the pieces of a split with the separator gives back the string. */
  lemma JoinSplit(s: string, sep: string)
    requires |sep| > 0
    ensures Join(Split(s, sep), sep) == s
  {
    JoinSplitFrom(s, sep, "");
  }

  /** A stretch without the separator's first character is collected into the current piece whole. */
  lemma {:induction false} SplitFromSkips(x: string, tail: string, sep: string, cur: string)
    requires |sep| > 0 && sep[0] !in x
    ensures SplitFrom(x + tail, sep, cur) == SplitFrom(tail, sep, cur + x)
    decreases |x|
  {
    if |x| > 0 {
      assert (x + tail)[0] == x[0];
      assert (x + tail)[1..] == x[1..] + tail;
      SplitFromSkips(x[1..], tail, sep, cur + [x[0]]);
      assert cur + [x[0]] + x[1..] == cur + x;
    } else {
      assert x + tail == tail;
      assert cur + x == cur;
    }
  }

  /**
   * Splitting a join gives back the pieces when no piece contains the
   * separator's first character.
   */
  lemma {:induction false} SplitJoin(pieces: seq<string>, sep: string)
    requires |sep| > 0 && |pieces| >= 1
    requires forall i :: 0 <= i < |pieces| ==> sep[0] !in pieces[i]
    ensures Split(Join(pieces, sep), sep) == pieces
    decreases |pieces|
  {
    if |pieces| == 1 {
      SplitFromSkips(pieces[0], "", sep, "");
      assert pieces[0] + "" == pieces[0] && "" + pieces[0] == pieces[0];
      assert SplitFrom("", sep, pieces[0]) == [pieces[0]];
      assert pieces == [pieces[0]];
    } else {
      var rest := Join(pieces[1..], sep);
      assert Join(pieces, sep) == pieces[0] + (sep + rest);
      SplitFromSkips(pieces[0], sep + rest, sep, "");
      assert (sep + rest)[|sep|..] == rest;
      SplitJoin(pieces[1..], sep);
      assert "" + pieces[0] == pieces[0];
      assert [pieces[0]] + pieces[1..] == pieces;
    }
  }

  // ---------------------------------------------------------------------
  // The explanation service.
  // ---------------------------------------------------------------------

  /** The stripped pieces that are not blank, in order. */
  function StripNonEmpty(pieces: seq<string>): (r: seq<string>)
    ensures |r| <= |pieces|
    ensures forall i :: 0 <= i < |r| ==> r[i] != "" && Stripped(r[i])
  {
    if |pieces| == 0 then []
    else
      var rest := StripNonEmpty(pieces[..|pieces| - 1]);
      var last := Strip(pieces[|pieces| - 1]);
      StripIsStripped(pieces[|pieces| - 1]);
      if last != "" then rest + [last] else rest
  }

  /**
   * The sections of a model answer: strip it, split it on the separator,
   * keep the non-blank stripped pieces if there are exactly three, and
   * otherwise fall back to the whole stripped answer as one section.
   */
  function ParseSections(content: string): (sections: seq<string>)
    ensures |sections| == 1 || |sections| == 3
    ensures |sections| == 1 ==> sections == [Strip(content)]
    ensures |sections| == 3 ==> sections == StripNonEmpty(Split(Strip(content), SectionSeparator))
    ensures |sections| == 3 ==> forall i :: 0 <= i < 3 ==> sections[i] != "" && Stripped(sections[i])
    ensures var pieces := StripNonEmpty(Split(Strip(content), SectionSeparator));
      (|pieces| == 3 ==> sections == pieces) && (|pieces| != 3 ==> sections == [Strip(content)])
  {
    var full := Strip(content);
    var pieces := StripNonEmpty(Split(full, SectionSeparator));
    if |pieces| != 3 then [full] else pieces
  }

  /**
   * generate_three_verses_explanation: None unless exactly three verses are
   * given, None when the model call fails, and the parsed sections otherwise.
   */
  function GenerateThreeVersesExplanation(verses: seq<VerseRef>, answer: Option<string>): (r: Option<seq<string>>)
    ensures r.Some? <==> |verses| == 3 && answer.Some?
    ensures r.Some? ==> r.value == ParseSections(answer.value)
    ensures r.Some? ==> |r.value| == 1 || |r.value| == 3
  {
    if |verses| != 3 then None
    else if answer.None? then None
    else Some(ParseSections(answer.value))
  }

  /** Three pieces joined by a separator. */
  lemma JoinThree(a: string, b: string, c: string, sep: string)
    ensures Join([a, b, c], sep) == a + sep + b + sep + c
  {
    assert [a, b, c][1..] == [b, c];
    assert [b, c][1..] == [c];
    assert Join([b, c], sep) == b + sep + c;
    assert a + sep + (b + sep + c) == a + sep + b + sep + c;
  }

  /** Filtering one more piece appends its strip when that is not blank. */
  lemma StripNonEmptySnoc(pieces: seq<string>, p: string)
    ensures StripNonEmpty(pieces + [p]) == StripNonEmpty(pieces) + (if Strip(p) != "" then [Strip(p)] else [])
  {
    assert (pieces + [p])[..|pieces|] == pieces;
  }

  lemma StripNonEmptyThree(a: string, b: string, c: string)
    requires Strip(a) != "" && Strip(b) != "" && Strip(c) != ""
    ensures StripNonEmpty([a, b, c]) == [Strip(a), Strip(b), Strip(c)]
  {
    var sa, sb, sc := Strip(a), Strip(b), Strip(c);
    StripNonEmptySnoc([], a);
    assert [] + [a] == [a];
    assert StripNonEmpty([a]) == [sa];
    StripNonEmptySnoc([a], b);
    assert [a] + [b] == [a, b];
    assert StripNonEmpty([a, b]) == [sa] + [sb] == [sa, sb];
    StripNonEmptySnoc([a, b], c);
    assert [a, b] + [c] == [a, b, c];
    assert StripNonEmpty([a, b, c]) == [sa, sb] + [sc] == [sa, sb, sc];
  }

  /**
   * An answer laid out as three sections between separators, each section
   * non-blank and free of '-', with no whitespace at the answer's ends,
   * parses into exactly those three sections, each stripped.
   */
  lemma ParseRecoversSections(a: string, b: string, c: string)
    requires Strip(a) != "" && Strip(b) != "" && Strip(c) != ""
    requires '-' !in a && '-' !in b && '-' !in c
    requires !IsSpace(a[0]) && !IsSpace(c[|c| - 1])
    ensures ParseSections(a + SectionSeparator + b + SectionSeparator + c) == [Strip(a), Strip(b), Strip(c)]
  {
    assert SectionSeparator[0] == '-';
    SplitThree(a, b, c, SectionSeparator);
    StripNonEmptyThree(a, b, c);
  }

  /** The generic half of ParseRecoversSections: the joined answer is its own strip and splits into its pieces. */
  lemma SplitThree(a: string, b: string, c: string, sep: string)
    requires |sep| > 0 && sep[0] !in a && sep[0] !in b && sep[0] !in c
    requires |a| > 0 && !IsSpace(a[0]) && |c| > 0 && !IsSpace(c[|c| - 1])
    ensures Strip(a + sep + b + sep + c) == a + sep + b + sep + c
    ensures Split(a + sep + b + sep + c, sep) == [a, b, c]
  {
    var content := a + sep + b + sep + c;
    assert content[0] == a[0];
    assert content[|content| - 1] == c[|c| - 1];
    StripOfStripped(content);
    SplitOfJoinThree(a, b, c, sep);
  }

  lemma SplitOfJoinThree(a: string, b: string, c: string, sep: string)
    requires |sep| > 0 && sep[0] !in a && sep[0] !in b && sep[0] !in c
    ensures Split(a + sep + b + sep + c, sep) == [a, b, c]
  {
    JoinThree(a, b, c, sep);
    SplitJoin([a, b, c], sep);
  }

  // ---------------------------------------------------------------------
  // Decimal rendering of the numbers in the messages (Python's str(int)).
  // ---------------------------------------------------------------------

  function DigitChar(d: nat): (c: char)
    requires d < 10
    ensures '0' <= c <= '9' && c as int - '0' as int == d
  {
    (('0' as int) + d) as char
  }

  /** The decimal digits of a natural number, without leading zeros. */
  function NatToString(n: nat): (s: string)
    ensures |s| >= 1 && (forall i :: 0 <= i < |s| ==> '0' <= s[i] <= '9')
    ensures s[0] == '0' ==> n == 0
    decreases n
  {
    if n < 10 then [DigitChar(n)] else NatToString(n / 10) + [DigitChar(n % 10)]
  }

  /** str(n) for an integer. */
  function IntToString(n: int): string
  {
    if n < 0 then "-" + NatToString(-n) else NatToString(n)
  }

  /** The value of a string of decimal digits. */
  function DigitsValue(s: string): int
  {
    if |s| == 0 then 0 else DigitsValue(s[..|s| - 1]) * 10 + (s[|s| - 1] as int - '0' as int)
  }

  /** The value of an optionally signed decimal numeral. */
  function ParseInt(s: string): int
  {
    if |s| > 0 && s[0] == '-' then -DigitsValue(s[1..]) else DigitsValue(s)
  }

  lemma {:induction false} NatToStringValue(n: nat)
    ensures DigitsValue(NatToString(n)) == n
    decreases n
  {
    if n >= 10 {
      NatToStringValue(n / 10);
      var s := NatToString(n / 10) + [DigitChar(n % 10)];
      assert s[..|s| - 1] == NatToString(n / 10);
    }
  }

  /** Reading back a rendered number gives the number. */
  lemma IntToStringRoundTrip(n: int)
    ensures ParseInt(IntToString(n)) == n
  {
    if n < 0 {
      NatToStringValue(-n);
      assert ("-" + NatToString(-n))[1..] == NatToString(-n);
    } else {
      NatToStringValue(n);
    }
  }

  // ---------------------------------------------------------------------
  // Messages.
  // ---------------------------------------------------------------------

  /** The light rule: forty U+2500 box-drawing characters. */
  const LightRule: string := "\U{2500}\U{2500}\U{2500}\U{2500}\U{2500}\U{2500}\U{2500}\U{2500}\U{2500}\U{2500}\U{2500}\U{2500}\U{2500}\U{2500}\U{2500}\U{2500}\U{2500}\U{2500}\U{2500}\U{2500}\U{2500}\U{2500}\U{2500}\U{2500}\U{2500}\U{2500}\U{2500}\U{2500}\U{2500}\U{2500}\U{2500}\U{2500}\U{2500}\U{2500}\U{2500}\U{2500}\U{2500}\U{2500}\U{2500}\U{2500}"

  /** The heavy rule: forty U+2550 box-drawing characters. */
  const HeavyRule: string := "\U{2550}\U{2550}\U{2550}\U{2550}\U{2550}\U{2550}\U{2550}\U{2550}\U{2550}\U{2550}\U{2550}\U{2550}\U{2550}\U{2550}\U{2550}\U{2550}\U{2550}\U{2550}\U{2550}\U{2550}\U{2550}\U{2550}\U{2550}\U{2550}\U{2550}\U{2550}\U{2550}\U{2550}\U{2550}\U{2550}\U{2550}\U{2550}\U{2550}\U{2550}\U{2550}\U{2550}\U{2550}\U{2550}\U{2550}\U{2550}"

  /** The divider between the sections of the combined message. */
  const Divider: string := "\n\n" + HeavyRule + "\n\n"

  const DailyHeader: string := "\U{1F319} Today's Daily Quran Verses\n\n"
  const TransliterationsLabel: string := "\U{1F524} TRANSLITERATIONS:\n\n"
  const TranslationsLabel: string := "\U{1F4D6} ENGLISH TRANSLATIONS:\n\n"
  const ContextLabel: string := "\U{1F4A1} CONTEXT & UNDERSTANDING:\n\n"

  /** The reference line of one verse. */
  function VerseLine(v: VerseRef): string
  {
    "\U{1F4D6} Surah " + IntToString(v.surah) + ": " + v.surahName + " - Verse " + IntToString(v.verse)
  }

  function VerseLines(verses: seq<VerseRef>): (lines: seq<string>)
    ensures |lines| == |verses|
    ensures forall i :: 0 <= i < |verses| ==> lines[i] == VerseLine(verses[i])
  {
    if |verses| == 0 then [] else [VerseLine(verses[0])] + VerseLines(verses[1..])
  }

  /** The verse list: one reference line per verse, joined by newlines. */
  function VersesList(verses: seq<VerseRef>): string
  {
    Join(VerseLines(verses), "\n")
  }

  lemma NoNewlineInNumber(n: int)
    ensures '\n' !in IntToString(n)
  {
    var s := NatToString(if n < 0 then -n else n);
    assert forall i :: 0 <= i < |s| ==> s[i] != '\n';
  }

  lemma NoNewlineInLine(v: VerseRef)
    requires '\n' !in v.surahName
    ensures '\n' !in VerseLine(v)
  {
    NoNewlineInNumber(v.surah);
    NoNewlineInNumber(v.verse);
  }

  /**
   * The verse list has exactly one line per verse, in input order: split on
   * newlines it gives back the reference lines.
   */
  lemma VersesListLines(verses: seq<VerseRef>)
    requires |verses| >= 1
    requires forall i :: 0 <= i < |verses| ==> '\n' !in verses[i].surahName
    ensures Split(VersesList(verses), "\n") == VerseLines(verses)
  {
    var lines := VerseLines(verses);
    forall i | 0 <= i < |lines|
      ensures '\n' !in lines[i]
    {
      NoNewlineInLine(verses[i]);
    }
    SplitJoin(lines, "\n");
  }

  /** One labelled section of the combined message. */
  function SectionBlock(heading: string, section: string): string
  {
    Divider + heading + section
  }

  /**
   * format_three_verses_message: with one section the fallback layout, with
   * three the header, the verse list and the three labelled sections joined
   * in order, and with any other number the empty string.
   */
  function FormatThreeVersesMessage(verses: seq<VerseRef>, sections: seq<string>): (msg: string)
    ensures msg == "" <==> |sections| != 1 && |sections| != 3
    ensures |sections| == 1 || |sections| == 3 ==> DailyHeader + VersesList(verses) <= msg
    ensures |sections| == 1 ==> msg == DailyHeader + VersesList(verses) + "\n\n" + LightRule + "\n\n" + sections[0]
  {
    if |sections| == 1 then
      DailyHeader + VersesList(verses) + "\n\n" + LightRule + "\n\n" + sections[0]
    else if |sections| != 3 then ""
    else
      DailyHeader + VersesList(verses)
      + SectionBlock(TransliterationsLabel, sections[0])
      + SectionBlock(TranslationsLabel, sections[1])
      + SectionBlock(ContextLabel, sections[2])
  }

  /** Where `section` sits in `msg`: right after `heading`, which starts at `at`. */
  predicate SectionAt(msg: string, at: int, heading: string, section: string)
  {
    0 <= at && at + |heading| + |section| <= |msg|
    && msg[at..at + |heading|] == heading
    && msg[at + |heading|..at + |heading| + |section|] == section
  }

  lemma LayoutOfBlocks(front: string, d: string, h0: string, s0: string, h1: string, s1: string, h2: string, s2: string)
    ensures var msg := front + (d + h0 + s0) + (d + h1 + s1) + (d + h2 + s2);
      var at0 := |front| + |d|;
      var at1 := at0 + |h0| + |s0| + |d|;
      var at2 := at1 + |h1| + |s1| + |d|;
      SectionAt(msg, at0, h0, s0) && SectionAt(msg, at1, h1, s1) && SectionAt(msg, at2, h2, s2)
      && at2 + |h2| + |s2| == |msg|
  {
  }

  /**
   * With three sections the message holds the transliterations, the
   * translations and the context in that order, each right after its
   * label, and it ends with the context.
   */
  lemma ThreeSectionLayout(verses: seq<VerseRef>, s0: string, s1: string, s2: string)
    ensures var msg := FormatThreeVersesMessage(verses, [s0, s1, s2]);
      var at0 := |DailyHeader + VersesList(verses)| + |Divider|;
      var at1 := at0 + |TransliterationsLabel| + |s0| + |Divider|;
      var at2 := at1 + |TranslationsLabel| + |s1| + |Divider|;
      SectionAt(msg, at0, TransliterationsLabel, s0)
      && SectionAt(msg, at1, TranslationsLabel, s1)
      && SectionAt(msg, at2, ContextLabel, s2)
      && at2 + |ContextLabel| + |s2| == |msg|
  {
    FormatThreeIsBlocks(verses, s0, s1, s2);
    LayoutOfBlocks(DailyHeader + VersesList(verses), Divider, TransliterationsLabel, s0,
      TranslationsLabel, s1, ContextLabel, s2);
  }

  lemma FormatThreeIsBlocks(verses: seq<VerseRef>, s0: string, s1: string, s2: string)
    ensures FormatThreeVersesMessage(verses, [s0, s1, s2])
         == (DailyHeader + VersesList(verses)) + (Divider + TransliterationsLabel + s0)
            + (Divider + TranslationsLabel + s1) + (Divider + ContextLabel + s2)
  {
  }

  /** format_verse_message: the reference line, the light rule and then the explanation. */
  function FormatVerseMessage(surah: int, surahName: string, verse: int, explanation: string): (msg: string)
    ensures VerseLine(VerseRef(surah, surahName, verse)) + "\n" <= msg
    ensures |msg| >= |explanation| && msg[|msg| - |explanation|..] == explanation
  {
    var header := "\U{1F4D6} Surah " + IntToString(surah) + ": " + surahName + " - Verse " + IntToString(verse) + "\n";
    var separator := LightRule + "\n\n";
    header + separator + explanation
  }
}
