/** Event URL slugs (utils/url.ts): `createEventSlug` turns an event title and
    id into `slug-id`, and `extractEventId` reads the id back from the last
    hyphen-separated segment. */
module Url {
  import opened Js
  import opened Strings
  import opened Lists

  predicate IsSlugChar(c: char) {
    'a' <= c <= 'z' || '0' <= c <= '9'
  }

  /** What the slug part of a URL looks like: only `[a-z0-9-]`, no hyphen at
      either end and never two hyphens in a row. */
  predicate WellFormedSlug(s: string) {
    && (forall i :: 0 <= i < |s| ==> IsSlugChar(s[i]) || s[i] == '-')
    && (s != [] ==> s[0] != '-' && s[|s| - 1] != '-')
    && (forall i :: 0 <= i < |s| - 1 ==> !(s[i] == '-' && s[i + 1] == '-'))
  }

  /** Drops the leading run of characters outside `[a-z0-9]`. */
  function DropRun(s: string): (r: string)
    ensures |r| <= |s| && r == s[|s| - |r|..]
    ensures r == [] || IsSlugChar(r[0])
  {
    if s != [] && !IsSlugChar(s[0]) then
      var r := DropRun(s[1..]);
      assert s[1..][|s| - 1 - |r|..] == s[|s| - |r|..];
      r
    else s
  }

  /** `.replace(/[^a-z0-9]+/g, '-')`: every maximal run of characters outside
      `[a-z0-9]` becomes one hyphen. */
  function CollapseRuns(s: string): (r: string)
    ensures forall i :: 0 <= i < |r| ==> IsSlugChar(r[i]) || r[i] == '-'
    ensures forall i :: 0 <= i < |r| - 1 ==> !(r[i] == '-' && r[i + 1] == '-')
    ensures s != [] && IsSlugChar(s[0]) ==> r != [] && r[0] == s[0]
    decreases |s|
  {
    if s == [] then []
    else if IsSlugChar(s[0]) then [s[0]] + CollapseRuns(s[1..])
    else "-" + CollapseRuns(DropRun(s[1..]))
  }

  /** The `^-+` half of `.replace(/^-+|-+$/g, '')`. */
  function DropLeadingHyphens(s: string): (r: string)
    ensures |r| <= |s| && r == s[|s| - |r|..]
    ensures r == [] || r[0] != '-'
    ensures forall i :: 0 <= i < |s| - |r| ==> s[i] == '-'
  {
    if s != [] && s[0] == '-' then DropLeadingHyphens(s[1..]) else s
  }

  /** The `-+$` half of `.replace(/^-+|-+$/g, '')`. */
  function DropTrailingHyphens(s: string): (r: string)
    ensures |r| <= |s| && r == s[..|r|]
    ensures r == [] || r[|r| - 1] != '-'
    ensures forall i :: |r| <= i < |s| ==> s[i] == '-'
  {
    if s != [] && s[|s| - 1] == '-' then DropTrailingHyphens(s[..|s| - 1]) else s
  }

  /** The slug part: lower-case, trim, collapse runs, strip end hyphens. */
  function Slugify(title: string): string {
    DropTrailingHyphens(DropLeadingHyphens(CollapseRuns(Trim(ToLower(title)))))
  }

  /** Only `[a-z0-9-]`, never two hyphens in a row. */
  predicate HyphenRunsCollapsed(s: string) {
    && (forall i :: 0 <= i < |s| ==> IsSlugChar(s[i]) || s[i] == '-')
    && (forall i :: 0 <= i < |s| - 1 ==> !(s[i] == '-' && s[i + 1] == '-'))
  }

  lemma HyphenRunsCollapsedSlice(s: string, lo: nat, hi: nat)
    requires lo <= hi <= |s| && HyphenRunsCollapsed(s)
    ensures HyphenRunsCollapsed(s[lo..hi])
  {
    var t := s[lo..hi];
    forall i | 0 <= i < |t| ensures t[i] == s[lo + i] {
    }
  }

  /** Whatever the title, its slug is well formed. */
  lemma SlugifyWellFormed(title: string)
    ensures WellFormedSlug(Slugify(title))
  {
    var c := CollapseRuns(Trim(ToLower(title)));
    var l := DropLeadingHyphens(c);
    var r := DropTrailingHyphens(l);
    assert HyphenRunsCollapsed(c);
    HyphenRunsCollapsedSlice(c, |c| - |l|, |c|);
    HyphenRunsCollapsedSlice(l, 0, |r|);
    if r != [] {
      assert r[0] == l[0];
    }
  }

  // ---------------------------------------------------------------------------
  // What the slug keeps of the title

  /** The letters and digits of a text, in order. */
  function SlugChars(s: string): string {
    Filter(s, IsSlugChar)
  }

  lemma SlugCharsCons(c: char, s: string)
    ensures SlugChars([c] + s) == (if IsSlugChar(c) then [c] else []) + SlugChars(s)
  {
    assert ([c] + s)[1..] == s;
  }

  lemma SlugCharsSnoc(s: string, c: char)
    ensures SlugChars(s + [c]) == SlugChars(s) + (if IsSlugChar(c) then [c] else [])
  {
    FilterAppend(s, [c], IsSlugChar);
    FilterSingle(c, IsSlugChar);
  }

  lemma {:induction false} DropRunKeepsSlugChars(s: string)
    ensures SlugChars(DropRun(s)) == SlugChars(s)
    decreases |s|
  {
    if s != [] && !IsSlugChar(s[0]) {
      DropRunKeepsSlugChars(s[1..]);
    }
  }

  /** Collapsing runs neither loses nor reorders a letter or digit. */
  lemma {:induction false} CollapseRunsKeepsSlugChars(s: string)
    ensures SlugChars(CollapseRuns(s)) == SlugChars(s)
    decreases |s|
  {
    if s != [] {
      if IsSlugChar(s[0]) {
        CollapseRunsKeepsSlugChars(s[1..]);
        SlugCharsCons(s[0], CollapseRuns(s[1..]));
      } else {
        DropRunKeepsSlugChars(s[1..]);
        CollapseRunsKeepsSlugChars(DropRun(s[1..]));
        SlugCharsCons('-', CollapseRuns(DropRun(s[1..])));
      }
    }
  }

  lemma {:induction false} DropRunOfRun(run: string, rest: string)
    requires forall i :: 0 <= i < |run| ==> !IsSlugChar(run[i])
    requires rest == [] || IsSlugChar(rest[0])
    ensures DropRun(run + rest) == rest
    decreases |run|
  {
    if run == [] {
      assert run + rest == rest;
    } else {
      assert (run + rest)[1..] == run[1..] + rest;
      DropRunOfRun(run[1..], rest);
    }
  }

  lemma ConsAppend(w: string, t: string)
    requires w != []
    ensures [w[0]] + (w[1..] + t) == w + t
  {
    assert [w[0]] + w[1..] == w;
  }

  lemma CollapseRunsCons(c: char, s: string)
    requires IsSlugChar(c)
    ensures CollapseRuns([c] + s) == [c] + CollapseRuns(s)
  {
    assert ([c] + s)[1..] == s;
  }

  /** A leading run of characters outside `[a-z0-9]` becomes one hyphen. */
  lemma CollapseRunsOfLeadingRun(run: string, rest: string)
    requires run != [] && forall i :: 0 <= i < |run| ==> !IsSlugChar(run[i])
    requires rest == [] || IsSlugChar(rest[0])
    ensures CollapseRuns(run + rest) == "-" + CollapseRuns(rest)
  {
    assert (run + rest)[0] == run[0];
    assert (run + rest)[1..] == run[1..] + rest;
    DropRunOfRun(run[1..], rest);
  }

  /** A word of letters and digits passes through unchanged. */
  lemma {:induction false} CollapseRunsOfWord(word: string, s: string)
    requires forall i :: 0 <= i < |word| ==> IsSlugChar(word[i])
    ensures CollapseRuns(word + s) == word + CollapseRuns(s)
    decreases |word|
  {
    if word == [] {
      assert word + s == s;
    } else {
      assert word + s == [word[0]] + (word[1..] + s);
      CollapseRunsOfWord(word[1..], s);
      CollapseRunsCons(word[0], word[1..] + s);
      ConsAppend(word, CollapseRuns(s));
    }
  }

  /** A word of letters and digits followed by a run of other characters
      becomes the word and one hyphen, whatever the run's length. */
  lemma CollapseRunsOfRun(word: string, run: string, rest: string)
    requires forall i :: 0 <= i < |word| ==> IsSlugChar(word[i])
    requires run != [] && forall i :: 0 <= i < |run| ==> !IsSlugChar(run[i])
    requires rest == [] || IsSlugChar(rest[0])
    ensures CollapseRuns(word + run + rest) == word + "-" + CollapseRuns(rest)
  {
    var tail := CollapseRuns(rest);
    AppendAssoc(word, run, rest);
    CollapseRunsOfWord(word, run + rest);
    CollapseRunsOfLeadingRun(run, rest);
    AppendAssoc(word, "-", tail);
  }

  lemma {:induction false} DropLeadingHyphensKeepsSlugChars(s: string)
    ensures SlugChars(DropLeadingHyphens(s)) == SlugChars(s)
    decreases |s|
  {
    if s != [] && s[0] == '-' {
      DropLeadingHyphensKeepsSlugChars(s[1..]);
      SlugCharsCons('-', s[1..]);
      assert [s[0]] + s[1..] == s;
    }
  }

  lemma {:induction false} DropTrailingHyphensKeepsSlugChars(s: string)
    ensures SlugChars(DropTrailingHyphens(s)) == SlugChars(s)
    decreases |s|
  {
    if s != [] && s[|s| - 1] == '-' {
      DropTrailingHyphensKeepsSlugChars(s[..|s| - 1]);
      SlugCharsSnoc(s[..|s| - 1], '-');
      assert s[..|s| - 1] + [s[|s| - 1]] == s;
    }
  }

  lemma WhitespaceIsNoSlugChar(c: char)
    requires IsJsWhitespace(c)
    ensures !IsSlugChar(c)
  {
  }

  lemma {:induction false} TrimStartKeepsSlugChars(s: string)
    ensures SlugChars(TrimStart(s)) == SlugChars(s)
    decreases |s|
  {
    if s != [] && IsJsWhitespace(s[0]) {
      TrimStartKeepsSlugChars(s[1..]);
      WhitespaceIsNoSlugChar(s[0]);
      SlugCharsCons(s[0], s[1..]);
      assert [s[0]] + s[1..] == s;
    }
  }

  lemma {:induction false} TrimEndKeepsSlugChars(s: string)
    ensures SlugChars(TrimEnd(s)) == SlugChars(s)
    decreases |s|
  {
    if s != [] && IsJsWhitespace(s[|s| - 1]) {
      TrimEndKeepsSlugChars(s[..|s| - 1]);
      WhitespaceIsNoSlugChar(s[|s| - 1]);
      SlugCharsSnoc(s[..|s| - 1], s[|s| - 1]);
      assert s[..|s| - 1] + [s[|s| - 1]] == s;
    }
  }

  /** The slug holds exactly the letters and digits of the lower-cased title,
      in their order: only the separators between them change. */
  lemma SlugifyKeepsTitleChars(title: string)
    ensures SlugChars(Slugify(title)) == SlugChars(ToLower(title))
  {
    var t := Trim(ToLower(title));
    TrimStartKeepsSlugChars(ToLower(title));
    TrimEndKeepsSlugChars(TrimStart(ToLower(title)));
    CollapseRunsKeepsSlugChars(t);
    DropLeadingHyphensKeepsSlugChars(CollapseRuns(t));
    DropTrailingHyphensKeepsSlugChars(DropLeadingHyphens(CollapseRuns(t)));
  }

  /** How `slug-id` splits back into the slug and the hyphenated id. */
  lemma JoinedParts(slug: string, id: string)
    requires WellFormedSlug(slug)
    ensures var r := slug + "-" + id;
      |r| > |id| && r[|r| - |id| - 1..] == "-" + id && WellFormedSlug(r[..|r| - |id| - 1])
  {
    var r := slug + "-" + id;
    assert r[..|slug|] == slug;
    assert r[|slug|..] == "-" + id;
    assert r[..|r| - |id| - 1] == slug;
  }

  /** `createEventSlug(title, id)` */
  function CreateEventSlug(title: string, id: string): (r: string)
    ensures title == "" ==> r == id
    ensures title != "" ==>
      |r| > |id| && r[|r| - |id| - 1..] == "-" + id && WellFormedSlug(r[..|r| - |id| - 1])
  {
    if title == "" then id
    else
      var slug := Slugify(title);
      var r := slug + "-" + id;
      assert |r| > |id| && r[|r| - |id| - 1..] == "-" + id && WellFormedSlug(r[..|r| - |id| - 1]) by {
        SlugifyWellFormed(title);
        JoinedParts(slug, id);
      }
      r
  }

  /** The characters of `slug-id` for a well-formed slug. */
  lemma JoinedAlphabet(slug: string, id: string)
    requires WellFormedSlug(slug)
    ensures var r := slug + "-" + id;
      forall i :: 0 <= i < |r| ==> IsSlugChar(r[i]) || r[i] == '-' || r[i] in id
  {
    var r := slug + "-" + id;
    forall i | 0 <= i < |r| ensures IsSlugChar(r[i]) || r[i] == '-' || r[i] in id {
      if i < |slug| {
        assert r[i] == slug[i];
      } else if i > |slug| {
        assert r[i] == id[i - |slug| - 1];
      }
    }
  }

  /** Every character of an event slug is a slug character, a hyphen or a
      character of the id. */
  lemma CreateEventSlugAlphabet(title: string, id: string)
    ensures var r := CreateEventSlug(title, id);
      forall i :: 0 <= i < |r| ==> IsSlugChar(r[i]) || r[i] == '-' || r[i] in id
  {
    if title != "" {
      SlugifyWellFormed(title);
      JoinedAlphabet(Slugify(title), id);
    }
  }

  /** The part of an event slug before the id holds exactly the letters and
      digits of the lower-cased title, in order. */
  lemma CreateEventSlugKeepsTitleChars(title: string, id: string)
    requires title != ""
    ensures var r := CreateEventSlug(title, id);
      |r| > |id| && SlugChars(r[..|r| - |id| - 1]) == SlugChars(ToLower(title))
  {
    var r := CreateEventSlug(title, id);
    assert r[..|r| - |id| - 1] == Slugify(title);
    SlugifyKeepsTitleChars(title);
  }

  /** `extractEventId(slugParam)`, with `undefined` as `None`. */
  function ExtractEventId(slugParam: Option<string>): (r: string)
    ensures '-' !in r
    ensures slugParam.None? || slugParam.value == "" ==> r == ""
    ensures slugParam.Some? && slugParam.value != "" ==>
      var s := slugParam.value;
      |r| <= |s| && s[|s| - |r|..] == r && (r == s || s[|s| - |r| - 1] == '-')
  {
    match slugParam
    case None => ""
    case Some(s) =>
      if s == "" then ""
      else
        LastPieceIsSuffix(s, '-');
        Last(Split(s, '-'))
  }

  /** Reading the id back from a slug made for it gives the id, as long as the
      id itself has no hyphen. */
  lemma ExtractCreateRoundTrip(title: string, id: string)
    requires '-' !in id
    ensures ExtractEventId(Some(CreateEventSlug(title, id))) == id
  {
    if title == "" {
      if id != "" {
        SplitNoSeparator(id, '-');
      }
    } else {
      LastPieceAfterSeparator(Slugify(title), '-', id);
    }
  }

  /** The example of the source's documentation comment. */
  lemma ExtractDocumentedExample()
    ensures ExtractEventId(Some("tidalrave-long-beach-e1")) == "e1"
  {
    assert "tidalrave-long-beach-e1" == "tidalrave-long-beach" + ['-'] + "e1";
    LastPieceAfterSeparator("tidalrave-long-beach", '-', "e1");
  }
}
