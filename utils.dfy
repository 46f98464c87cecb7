/**
 * Text helpers of the integration: cleaning feed text, picking a waterway
 * name out of a location, classifying an issue and bucketing its duration.
 * Characters are handled as ASCII (see `Ascii`).
 */
module Utils {
  import opened Wrappers
  import opened Feed
  import opened Ascii
  import opened Seqs

  // ---------------------------------------------------------------------
  // clean_text, step 1: `re.sub(r'<[^>]+>', '', text)`
  // ---------------------------------------------------------------------

  /** The first position of `c` in `s`. */
  function IndexOf(s: string, c: char): (r: Option<nat>)
    ensures r.Some? ==> r.value < |s| && s[r.value] == c && c !in s[..r.value]
    ensures r.None? <==> c !in s
  {
    if s == [] then None
    else if s[0] == c then Some(0)
    else match IndexOf(s[1..], c)
      case Some(k) =>
        assert s[..k + 1] == [s[0]] + s[1..][..k];
        Some(k + 1)
      case None => None
  }

  /** The length of the `<[^>]+>` match at the front of `s`, if there is one:
      a `<`, at least one character other than `>`, and the first `>` after them. */
  function TagAt(s: string): (r: Option<nat>)
    ensures r.Some? ==> 3 <= r.value <= |s| && s[0] == '<' && s[r.value - 1] == '>'
                        && '>' !in s[1..r.value - 1]
    ensures r.None? <==> |s| < 2 || s[0] != '<' || s[1] == '>' || '>' !in s[1..]
  {
    if |s| >= 2 && s[0] == '<' then
      match IndexOf(s[1..], '>')
      case Some(k) =>
        assert s[1..][..k] == s[1..k + 1];
        if k > 0 then Some(k + 2) else None
      case None => None
    else None
  }

  /** One left-to-right pass that deletes every tag match and keeps every other character. */
  function StripTags(s: string): (r: string)
    ensures |r| <= |s|
    ensures forall c :: c in r ==> c in s
    decreases |s|
  {
    if s == [] then []
    else if TagAt(s).Some? then
      var rest := StripTags(s[TagAt(s).value..]);
      assert forall c :: c in s[TagAt(s).value..] ==> c in s;
      rest
    else
      var rest := StripTags(s[1..]);
      assert forall c :: c in s[1..] ==> c in s;
      [s[0]] + rest
  }

  /** No position of `s` starts a tag match. */
  predicate TagFree(s: string)
    decreases |s|
  {
    s == [] || (TagAt(s).None? && TagFree(s[1..]))
  }

  /** The pass leaves no tag behind: what it keeps cannot form a new one. */
  lemma {:induction false} StripTagsTagFree(s: string)
    ensures TagFree(StripTags(s))
    decreases |s|
  {
    if s == [] {
    } else if TagAt(s).Some? {
      StripTagsTagFree(s[TagAt(s).value..]);
    } else {
      var rest := StripTags(s[1..]);
      StripTagsTagFree(s[1..]);
      var r := [s[0]] + rest;
      assert r[1..] == rest;
      if |s| >= 2 && s[0] == '<' {
        if s[1] == '>' {
          assert TagAt(s[1..]).None?;
          assert s[1..][1..] == s[2..];
          assert rest == ['>'] + StripTags(s[2..]);
          assert r[1] == '>';
        } else {
          assert '>' !in rest;
        }
      }
    }
  }

  /** Text without tags passes through unchanged. */
  lemma {:induction false} StripTagsOfTagFree(s: string)
    requires TagFree(s)
    ensures StripTags(s) == s
    decreases |s|
  {
    if s != [] {
      StripTagsOfTagFree(s[1..]);
    }
  }

  /** Text without `<` has no tags. */
  lemma {:induction false} NoOpenerTagFree(s: string)
    requires '<' !in s
    ensures TagFree(s)
    decreases |s|
  {
    if s != [] {
      assert s[0] in s;
      assert forall c :: c in s[1..] ==> c in s;
      NoOpenerTagFree(s[1..]);
    }
  }

  /** Deleting tags twice deletes nothing more. */
  lemma StripTagsIdempotent(s: string)
    ensures StripTags(StripTags(s)) == StripTags(s)
  {
    StripTagsTagFree(s);
    StripTagsOfTagFree(StripTags(s));
  }

  /** A suffix of tag-free text is tag-free. */
  lemma {:induction false} TagFreeSuffix(s: string, k: nat)
    requires TagFree(s) && k <= |s|
    ensures TagFree(s[k..])
    decreases k
  {
    if k > 0 {
      TagFreeSuffix(s[1..], k - 1);
      assert s[1..][k - 1..] == s[k..];
    }
  }

  /** A prefix of tag-free text is tag-free. */
  lemma {:induction false} TagFreePrefix(s: string, n: nat)
    requires TagFree(s) && n <= |s|
    ensures TagFree(s[..n])
    decreases |s|
  {
    var t := s[..n];
    if t != [] {
      assert t[1..] == s[1..][..n - 1];
      TagFreePrefix(s[1..], n - 1);
      if |t| >= 2 && t[0] == '<' {
        assert t[1] == s[1];
        assert forall c :: c in t[1..] ==> c in s[1..];
      }
    }
  }

  /** Finding a character that occurs in the first part never looks past it. */
  lemma {:induction false} IndexOfAppend(a: string, b: string, c: char)
    requires c in a
    ensures IndexOf(a + b, c) == IndexOf(a, c)
    decreases |a|
  {
    assert (a + b)[0] == a[0];
    if a[0] != c {
      assert a == [a[0]] + a[1..];
      assert (a + b)[1..] == a[1..] + b;
      IndexOfAppend(a[1..], b, c);
    }
  }

  /** A character that starts no tag match, `<` included, is kept. */
  lemma StripTagsKeepsHead(u: string)
    requires u != [] && TagAt(u).None?
    ensures StripTags(u) == [u[0]] + StripTags(u[1..])
  {
  }

  /** Text without `<` is kept as it is, ahead of whatever follows it. */
  lemma {:induction false} StripTagsKeepsPlain(p: string, s: string)
    requires '<' !in p
    ensures StripTags(p + s) == p + StripTags(s)
    decreases |p|
  {
    if p == [] {
      assert p + s == s;
    } else {
      var u := p + s;
      assert p == [p[0]] + p[1..];
      assert u[0] == p[0] && u[1..] == p[1..] + s;
      assert TagAt(u).None?;
      StripTagsKeepsHead(u);
      StripTagsKeepsPlain(p[1..], s);
    }
  }

  /** A whole tag is deleted, whatever follows it. */
  lemma StripTagsDropsTag(tag: string, s: string)
    requires TagAt(tag) == Some(|tag|)
    ensures StripTags(tag + s) == StripTags(s)
  {
    var u := tag + s;
    assert u[1..] == tag[1..] + s;
    assert tag[1..][|tag| - 2] == '>';
    IndexOfAppend(tag[1..], s, '>');
    assert TagAt(u) == Some(|tag|);
    assert u[|tag|..] == s;
  }

  /** A tag match at the front is deleted and the pass goes on right after it. */
  lemma StripTagsSkipsMatch(s: string, k: nat)
    requires TagAt(s) == Some(k)
    ensures StripTags(s) == StripTags(s[k..])
  {
  }

  // ---------------------------------------------------------------------
  // clean_text, step 2: `re.sub(r'\s+', ' ', text).strip()`
  // ---------------------------------------------------------------------

  /** Every maximal run of whitespace becomes one space. */
  function Collapse(s: string): (r: string)
    ensures s == [] <==> r == []
    ensures s != [] && !IsSpace(s[0]) ==> r[0] == s[0]
    ensures s != [] && IsSpace(s[0]) ==> r[0] == ' '
    ensures forall c :: c in r ==> c in s || c == ' '
    decreases |s|
  {
    if s == [] then []
    else if IsSpace(s[0]) then
      var rest := Collapse(TrimStart(s));
      assert forall c :: c in TrimStart(s) ==> c in s;
      " " + rest
    else
      var rest := Collapse(s[1..]);
      assert forall c :: c in s[1..] ==> c in s;
      [s[0]] + rest
  }

  /** After collapsing, the only whitespace is single spaces. */
  lemma {:induction false} CollapseShape(s: string)
    ensures forall i :: 0 <= i < |Collapse(s)| && IsSpace(Collapse(s)[i]) ==> Collapse(s)[i] == ' '
    ensures forall i :: 0 <= i < |Collapse(s)| - 1 ==> !(IsSpace(Collapse(s)[i]) && IsSpace(Collapse(s)[i + 1]))
    decreases |s|
  {
    if s != [] {
      var t := if IsSpace(s[0]) then TrimStart(s) else s[1..];
      CollapseShape(t);
      var r := Collapse(s);
      assert r[1..] == Collapse(t);
    }
  }

  function NotSpace(c: char): bool {
    !IsSpace(c)
  }

  /** Dropping leading whitespace keeps every other character. */
  lemma {:induction false} FilterSkipsSpaces(s: string, k: nat)
    requires k <= |s| && forall i :: 0 <= i < k ==> IsSpace(s[i])
    ensures Filter(NotSpace, s[k..]) == Filter(NotSpace, s)
    decreases k
  {
    if k > 0 {
      assert !NotSpace(s[0]);
      FilterSkipsSpaces(s[1..], k - 1);
      assert s[1..][k - 1..] == s[k..];
    }
  }

  /** Collapsing keeps every character that is not whitespace, in order. */
  lemma {:induction false} CollapseKeepsText(s: string)
    ensures Filter(NotSpace, Collapse(s)) == Filter(NotSpace, s)
    decreases |s|
  {
    if s != [] {
      var r := Collapse(s);
      if IsSpace(s[0]) {
        var t := TrimStart(s);
        CollapseKeepsText(t);
        assert r == " " + Collapse(t);
        assert r[1..] == Collapse(t) && !NotSpace(r[0]);
        FilterSkipsSpaces(s, LeadingSpaces(s));
      } else {
        CollapseKeepsText(s[1..]);
        assert r == [s[0]] + Collapse(s[1..]);
        assert r[1..] == Collapse(s[1..]) && r[0] == s[0];
      }
    }
  }

  /** A text starting with whitespace collapses to one space and the collapse of the rest after the run. */
  lemma CollapseRunStep(s: string)
    requires s != [] && IsSpace(s[0])
    ensures Collapse(s) == " " + Collapse(TrimStart(s))
  {
  }

  /** A text starting with another character keeps it ahead of the collapse of the rest. */
  lemma CollapseKeepStep(s: string)
    requires s != [] && !IsSpace(s[0])
    ensures Collapse(s) == [s[0]] + Collapse(s[1..])
  {
  }

  /** A whitespace run between other characters becomes exactly one space. */
  lemma {:induction false} CollapseJoin(a: string, w: string, b: string)
    requires a == [] || !IsSpace(a[|a| - 1])
    requires w != [] && forall i :: 0 <= i < |w| ==> IsSpace(w[i])
    requires b == [] || !IsSpace(b[0])
    ensures Collapse(a + w + b) == Collapse(a) + " " + Collapse(b)
    decreases |a|
  {
    if a == [] {
      assert a + w + b == w + b;
      CollapseRunAhead(w, b);
    } else if IsSpace(a[0]) {
      var t := TrimStart(a);
      LeadingSpacesTail(a);
      CollapseJoin(t, w, b);
      AppendAssoc(t, w, b);
      AppendAssoc(a, w, b);
      CollapseJoinSpace(a, w + b, Collapse(b));
    } else {
      CollapseJoin(a[1..], w, b);
      AppendAssoc(a[1..], w, b);
      AppendAssoc(a, w, b);
      CollapseJoinKeep(a, w + b, Collapse(b));
    }
  }

  lemma AppendAssoc(a: string, w: string, b: string)
    ensures a + w + b == a + (w + b)
  {
  }

  /** A leading run ahead of another character collapses to one space. */
  lemma CollapseRunAhead(w: string, b: string)
    requires w != [] && forall i :: 0 <= i < |w| ==> IsSpace(w[i])
    requires b == [] || !IsSpace(b[0])
    ensures Collapse(w + b) == " " + Collapse(b)
  {
    var u := w + b;
    LeadingSpacesOfRun(w, b);
    assert TrimStart(u) == b;
    CollapseRunStep(u);
  }

  /** Stripping the leading run of a text that ends in another character
      leaves a shorter text that still ends in it. */
  lemma LeadingSpacesTail(a: string)
    requires a != [] && IsSpace(a[0]) && !IsSpace(a[|a| - 1])
    ensures var t := TrimStart(a); 0 < |t| < |a| && t[|t| - 1] == a[|a| - 1]
  {
  }

  /** The step of `CollapseJoin` at a leading run of `a`. */
  lemma CollapseJoinSpace(a: string, x: string, cb: string)
    requires a != [] && IsSpace(a[0]) && !IsSpace(a[|a| - 1])
    requires Collapse(TrimStart(a) + x) == Collapse(TrimStart(a)) + " " + cb
    ensures Collapse(a + x) == Collapse(a) + " " + cb
  {
    TrimStartAppend(a, x);
    CollapseRunStep(a + x);
    CollapseRunStep(a);
    JoinRegroup(" ", Collapse(TrimStart(a)), cb);
  }

  lemma TrimStartAppend(a: string, x: string)
    requires a != [] && !IsSpace(a[|a| - 1])
    ensures TrimStart(a + x) == TrimStart(a) + x
  {
    LeadingSpacesAppend(a, x);
  }

  /** The step of `CollapseJoin` at a leading character of `a` that is not whitespace. */
  lemma CollapseJoinKeep(a: string, x: string, cb: string)
    requires a != [] && !IsSpace(a[0])
    requires Collapse(a[1..] + x) == Collapse(a[1..]) + " " + cb
    ensures Collapse(a + x) == Collapse(a) + " " + cb
  {
    HeadOfAppend(a, x);
    CollapseKeepStep(a + x);
    CollapseKeepStep(a);
    JoinRegroup([a[0]], Collapse(a[1..]), cb);
  }

  lemma JoinRegroup(h: string, c: string, cb: string)
    ensures h + (c + " " + cb) == h + c + " " + cb
  {
  }

  lemma HeadOfAppend(a: string, x: string)
    requires a != []
    ensures (a + x)[0] == a[0] && (a + x)[1..] == a[1..] + x
  {
  }

  /** Whitespace is only single spaces between other characters. */
  predicate Normalised(s: string) {
    (forall i :: 0 <= i < |s| && IsSpace(s[i]) ==> s[i] == ' ')
    && (forall i :: 0 <= i < |s| - 1 ==> !(IsSpace(s[i]) && IsSpace(s[i + 1])))
    && (s == [] || (!IsSpace(s[0]) && !IsSpace(s[|s| - 1])))
  }

  /** Collapsing and then stripping always yields normalised text. */
  lemma CollapseStripNormalised(s: string)
    ensures Normalised(Strip(Collapse(s)))
  {
    CollapseShape(s);
    StripNormalised(Collapse(s));
  }

  /** Stripping text whose whitespace is single spaces normalises it. */
  lemma StripNormalised(c: string)
    requires forall i :: 0 <= i < |c| && IsSpace(c[i]) ==> c[i] == ' '
    requires forall i :: 0 <= i < |c| - 1 ==> !(IsSpace(c[i]) && IsSpace(c[i + 1]))
    ensures Normalised(Strip(c))
  {
    var o := StripOffset(c);
    var t := TrimStart(c);
    assert t == c[o..];
    var r := Strip(c);
    assert r == t[..|t| - TrailingSpaces(t)];
    forall i | 0 <= i < |r| ensures r[i] == c[o + i] {
      assert r[i] == t[i];
    }
  }

  /** Normalised text is its own collapse. */
  lemma {:induction false} CollapseOfNormalised(s: string)
    requires forall i :: 0 <= i < |s| && IsSpace(s[i]) ==> s[i] == ' '
    requires forall i :: 0 <= i < |s| - 1 ==> !(IsSpace(s[i]) && IsSpace(s[i + 1]))
    ensures Collapse(s) == s
    decreases |s|
  {
    if s != [] {
      if IsSpace(s[0]) {
        if |s| > 1 {
          assert !IsSpace(s[1]);
        }
        assert TrimStart(s[1..]) == s[1..];
        assert TrimStart(s) == s[1..];
      }
      CollapseOfNormalised(s[1..]);
    }
  }

  /** Collapsing whitespace cannot create a tag. */
  lemma {:induction false} CollapseTagFree(s: string)
    requires TagFree(s)
    ensures TagFree(Collapse(s))
    decreases |s|
  {
    if s != [] {
      if IsSpace(s[0]) {
        var t := TrimStart(s);
        TagFreeSuffix(s, |s| - |t|);
        CollapseTagFree(t);
        assert (" " + Collapse(t))[1..] == Collapse(t);
      } else {
        var rest := Collapse(s[1..]);
        CollapseTagFree(s[1..]);
        var r := [s[0]] + rest;
        assert r[1..] == rest;
        if |s| >= 2 && s[0] == '<' && s[1] != '>' {
          assert '>' !in rest;
        }
      }
    }
  }

  /** Stripping cannot create a tag. */
  lemma StripTagFree(s: string)
    requires TagFree(s)
    ensures TagFree(Strip(s))
  {
    var t := TrimStart(s);
    TagFreeSuffix(s, |s| - |t|);
    TagFreePrefix(t, |TrimEnd(t)|);
  }

  // ---------------------------------------------------------------------
  // clean_text, step 3: the four `str.replace` calls
  // ---------------------------------------------------------------------

  /** `str.replace(pat, rep)`: non-overlapping occurrences, left to right. */
  function Replace(s: string, pat: string, rep: string): (r: string)
    requires |pat| > 0
    ensures forall c :: c in r ==> c in s || c in rep
    decreases |s|
  {
    if s == [] then []
    else if pat <= s then
      var rest := Replace(s[|pat|..], pat, rep);
      assert forall c :: c in s[|pat|..] ==> c in s;
      rep + rest
    else
      var rest := Replace(s[1..], pat, rep);
      assert forall c :: c in s[1..] ==> c in s;
      [s[0]] + rest
  }

  /** Text without the pattern's first character is left alone. */
  lemma {:induction false} ReplaceAbsent(s: string, pat: string, rep: string)
    requires |pat| > 0 && pat[0] !in s
    ensures Replace(s, pat, rep) == s
    decreases |s|
  {
    if s != [] {
      assert s[0] in s;
      assert forall c :: c in s[1..] ==> c in s;
      ReplaceAbsent(s[1..], pat, rep);
    }
  }

  /** An occurrence at the front becomes the replacement, and the scan goes on after it. */
  lemma ReplaceAtMatch(pat: string, s: string, rep: string)
    requires |pat| > 0
    ensures Replace(pat + s, pat, rep) == rep + Replace(s, pat, rep)
  {
    assert pat <= pat + s;
    assert (pat + s)[|pat|..] == s;
  }

  /** Where no occurrence starts, the character is kept and the scan moves one on. */
  lemma ReplaceSkipsNonMatch(s: string, pat: string, rep: string)
    requires |pat| > 0 && s != [] && !(pat <= s)
    ensures Replace(s, pat, rep) == [s[0]] + Replace(s[1..], pat, rep)
  {
  }

  /** Text without the pattern's first character is kept, ahead of whatever follows it. */
  lemma {:induction false} ReplaceKeepsPlain(p: string, s: string, pat: string, rep: string)
    requires |pat| > 0 && pat[0] !in p
    ensures Replace(p + s, pat, rep) == p + Replace(s, pat, rep)
    decreases |p|
  {
    if p == [] {
      assert p + s == s;
    } else {
      var u := p + s;
      assert u[0] == p[0] && p[0] != pat[0];
      assert !(pat <= u);
      assert u[1..] == p[1..] + s;
      assert p == [p[0]] + p[1..];
      ReplaceKeepsPlain(p[1..], s, pat, rep);
    }
  }

  /** The entity decoding, `&nbsp;` first and `&amp;` before `&lt;` and `&gt;`. */
  function Decode(s: string): (r: string)
    ensures forall c :: c in r ==> c in s || c in " &<>"
  {
    Replace(Replace(Replace(Replace(s, "&nbsp;", " "), "&amp;", "&"), "&lt;", "<"), "&gt;", ">")
  }

  /** Text without `&` is left alone by the decoding. */
  lemma DecodeAbsent(s: string)
    requires '&' !in s
    ensures Decode(s) == s
  {
    ReplaceAbsent(s, "&nbsp;", " ");
    ReplaceAbsent(s, "&amp;", "&");
    ReplaceAbsent(s, "&lt;", "<");
    ReplaceAbsent(s, "&gt;", ">");
  }

  /** Text without `&` is kept by the decoding, ahead of whatever follows it. */
  lemma DecodeKeepsPlain(p: string, s: string)
    requires '&' !in p
    ensures Decode(p + s) == p + Decode(s)
  {
    var s1 := Replace(s, "&nbsp;", " ");
    var s2 := Replace(s1, "&amp;", "&");
    var s3 := Replace(s2, "&lt;", "<");
    ReplaceKeepsPlain(p, s, "&nbsp;", " ");
    ReplaceKeepsPlain(p, s1, "&amp;", "&");
    ReplaceKeepsPlain(p, s2, "&lt;", "<");
    ReplaceKeepsPlain(p, s3, "&gt;", ">");
  }

  /** The text before decoding: tags deleted, whitespace collapsed and stripped. */
  function Undecoded(s: string): string {
    Strip(Collapse(StripTags(s)))
  }

  /** `clean_text`: falsy input gives `""`; otherwise tags, whitespace, then entities. */
  function CleanText(text: Option<string>): (r: string)
    ensures text.None? || text.value == "" ==> r == ""
    ensures text.Some? && text.value != "" ==> r == Decode(Undecoded(text.value))
  {
    if text.None? || text.value == "" then "" else Decode(Undecoded(text.value))
  }

  /** Before decoding the text is normalised and tag-free, whatever the input. */
  lemma UndecodedCleanShape(s: string)
    ensures Normalised(Undecoded(s))
    ensures TagFree(Undecoded(s))
  {
    StripTagsTagFree(s);
    CollapseTagFree(StripTags(s));
    StripTagFree(Collapse(StripTags(s)));
    CollapseStripNormalised(StripTags(s));
  }

  /** Normalised text holds no line break. */
  lemma NormalisedNoNewline(u: string)
    requires Normalised(u)
    ensures '\n' !in u
  {
    assert IsSpace('\n');
  }

  /** Cleaned text never holds a line break: all whitespace was collapsed, and
      decoding only brings in spaces, `&`, `<` and `>`. */
  lemma CleanTextNoNewline(text: Option<string>)
    ensures '\n' !in CleanText(text)
  {
    if text.Some? && text.value != "" {
      var u := Undecoded(text.value);
      UndecodedCleanShape(text.value);
      NormalisedNoNewline(u);
      DecodeNoNewline(u);
    }
  }

  /** Decoding brings in no line break. */
  lemma DecodeNoNewline(u: string)
    requires '\n' !in u
    ensures '\n' !in Decode(u)
  {
    var d := Decode(u);
    assert forall c :: c in d ==> c in u || c in " &<>";
  }

  /** Text without `&` comes out normalised and tag-free, and cleaning it again changes nothing. */
  lemma CleanTextIdempotentWithoutEntities(s: string)
    requires '&' !in s
    ensures Normalised(CleanText(Some(s))) && TagFree(CleanText(Some(s)))
    ensures CleanText(Some(CleanText(Some(s)))) == CleanText(Some(s))
  {
    if s != "" {
      var u := Undecoded(s);
      UndecodedCleanShape(s);
      assert '&' !in u;
      DecodeAbsent(u);
      StripTagsOfTagFree(u);
      CollapseOfNormalised(u);
      StripNoEdges(u);
      assert Undecoded(u) == u;
    }
  }

  /** Text in which the pattern's first two characters never meet is left alone. */
  lemma {:induction false} ReplaceNoPair(s: string, pat: string, rep: string)
    requires |pat| >= 2
    requires forall i :: 0 <= i < |s| - 1 ==> !(s[i] == pat[0] && s[i + 1] == pat[1])
    ensures Replace(s, pat, rep) == s
    decreases |s|
  {
    if s != [] {
      if |s| >= 2 {
        assert !(pat <= s) by { assert !(s[0] == pat[0] && s[1] == pat[1]); }
      }
      ReplaceNoPair(s[1..], pat, rep);
    }
  }

  /** Plain text without `<` or whitespace is untouched before decoding. */
  lemma UndecodedOfPlain(s: string)
    requires '<' !in s
    requires forall i :: 0 <= i < |s| ==> !IsSpace(s[i])
    ensures Undecoded(s) == s
  {
    NoOpenerTagFree(s);
    StripTagsOfTagFree(s);
    CollapseOfNormalised(s);
    StripNoEdges(s);
  }

  /** Text the first two steps leave alone is only decoded. */
  lemma CleanTextOfUndecoded(s: string)
    requires s != "" && Undecoded(s) == s
    ensures CleanText(Some(s)) == Decode(s)
  {
  }

  lemma EscapedTagIsPlain()
    ensures Undecoded("&lt;b&gt;") == "&lt;b&gt;"
  {
    UndecodedOfPlain("&lt;b&gt;");
  }

  lemma ReplaceLtInEscapedTag()
    ensures Replace("&lt;b&gt;", "&lt;", "<") == "<b&gt;"
  {
    assert "&lt;b&gt;"[4..] == "b&gt;";
    assert "b&gt;"[1..] == "&gt;";
    ReplaceNoPair("&gt;", "&lt;", "<");
  }

  lemma ReplaceGtInEscapedTag()
    ensures Replace("<b&gt;", "&gt;", ">") == "<b>"
  {
    assert "<b&gt;"[2..] == "&gt;";
    assert "&gt;"[4..] == [];
  }

  /** Entities are decoded after tags are deleted, so an escaped tag survives as a tag. */
  lemma EscapedTagSurvives()
    ensures CleanText(Some("&lt;b&gt;")) == "<b>"
  {
    EscapedTagIsPlain();
    CleanTextOfUndecoded("&lt;b&gt;");
    DecodeEscapedTag();
  }

  lemma DecodeEscapedTag()
    ensures Decode("&lt;b&gt;") == "<b>"
  {
    EscapedTagHasNoNbsp();
    EscapedTagHasNoAmp();
    ReplaceLtInEscapedTag();
    ReplaceGtInEscapedTag();
  }

  lemma EscapedTagHasNoNbsp()
    ensures Replace("&lt;b&gt;", "&nbsp;", " ") == "&lt;b&gt;"
  {
    ReplaceNoPair("&lt;b&gt;", "&nbsp;", " ");
  }

  lemma EscapedTagHasNoAmp()
    ensures Replace("&lt;b&gt;", "&amp;", "&") == "&lt;b&gt;"
  {
    ReplaceNoPair("&lt;b&gt;", "&amp;", "&");
  }

  lemma DoubleEscapeIsPlain()
    ensures Undecoded("&amp;lt;") == "&amp;lt;"
  {
    UndecodedOfPlain("&amp;lt;");
  }

  lemma ReplaceAmpInDoubleEscape()
    ensures Replace("&amp;lt;", "&amp;", "&") == "&lt;"
  {
    assert "&amp;lt;"[5..] == "lt;";
    ReplaceAbsent("lt;", "&amp;", "&");
  }

  lemma ReplaceLtAlone()
    ensures Replace("&lt;", "&lt;", "<") == "<"
  {
    assert "&lt;"[4..] == [];
  }

  /** `&amp;` is decoded before `&lt;`, so a doubly escaped `<` comes out as `<`. */
  lemma DoubleEscapeDecodesFully()
    ensures CleanText(Some("&amp;lt;")) == "<"
  {
    DoubleEscapeIsPlain();
    CleanTextOfUndecoded("&amp;lt;");
    DecodeDoubleEscape();
  }

  lemma DecodeDoubleEscape()
    ensures Decode("&amp;lt;") == "<"
  {
    ReplaceNoPair("&amp;lt;", "&nbsp;", " ");
    ReplaceAmpInDoubleEscape();
    ReplaceLtAlone();
    ReplaceAbsent("<", "&gt;", ">");
  }

  lemma NbspRunIsPlain()
    ensures Undecoded("a&nbsp;&nbsp;b") == "a&nbsp;&nbsp;b"
  {
    UndecodedOfPlain("a&nbsp;&nbsp;b");
  }

  lemma ReplaceNbspTwice()
    ensures Replace("a&nbsp;&nbsp;b", "&nbsp;", " ") == "a  b"
  {
    assert "a&nbsp;&nbsp;b"[1..] == "&nbsp;&nbsp;b";
    assert "&nbsp;&nbsp;b"[6..] == "&nbsp;b";
    assert "&nbsp;b"[6..] == "b";
    ReplaceAbsent("b", "&nbsp;", " ");
  }

  /** `&nbsp;` is decoded after whitespace is collapsed, so it can leave doubled spaces. */
  lemma SpacesFromNbspStay()
    ensures CleanText(Some("a&nbsp;&nbsp;b")) == "a  b"
  {
    NbspRunIsPlain();
    CleanTextOfUndecoded("a&nbsp;&nbsp;b");
    DecodeNbspRun();
  }

  lemma DecodeNbspRun()
    ensures Decode("a&nbsp;&nbsp;b") == "a  b"
  {
    ReplaceNbspTwice();
    ReplaceAbsent("a  b", "&amp;", "&");
    ReplaceAbsent("a  b", "&lt;", "<");
    ReplaceAbsent("a  b", "&gt;", ">");
  }

  // ---------------------------------------------------------------------
  // extract_waterway_name
  // ---------------------------------------------------------------------

  /** The keywords of the four patterns `(.*?KW)(?:\s|,|$)`, in the order tried. */
  const WaterwayKeywords: seq<string> := ["Canal", "River", "Navigation", "Waterway"]

  /** `(?:\s|,|$)` holds at position `e`. */
  predicate Delimited(s: string, e: nat)
    requires e <= |s|
  {
    e == |s| || IsSpace(s[e]) || s[e] == ','
  }

  /** The keyword, compared case-insensitively, ends at `e` and is followed by a delimiter. */
  predicate KeywordEndsAt(s: string, kw: string, e: nat) {
    |kw| <= e <= |s| && LowerStr(s[e - |kw|..e]) == LowerStr(kw) && Delimited(s, e)
  }

  /** The smallest keyword end at or after `e`. */
  function FirstKeywordEnd(s: string, kw: string, e: nat): (r: Option<nat>)
    ensures r.Some? ==> e <= r.value && KeywordEndsAt(s, kw, r.value)
    ensures r.Some? ==> forall j :: e <= j < r.value ==> !KeywordEndsAt(s, kw, j)
    ensures r.None? ==> forall j :: e <= j ==> !KeywordEndsAt(s, kw, j)
    decreases |s| + 1 - e
  {
    if e > |s| then None
    else if KeywordEndsAt(s, kw, e) then Some(e)
    else FirstKeywordEnd(s, kw, e + 1)
  }

  /** The start of the line holding position `e`: `.` does not cross a line break. */
  function LineStart(s: string, e: nat): (r: nat)
    requires e <= |s|
    ensures r <= e && '\n' !in s[r..e]
    ensures r == 0 || s[r - 1] == '\n'
  {
    if e == 0 then 0
    else if s[e - 1] == '\n' then e
    else
      var r := LineStart(s, e - 1);
      assert s[r..e] == s[r..e - 1] + [s[e - 1]];
      r
  }

  /** Group 1 of `re.search(r'(.*?KW)(?:\s|,|$)', s, re.IGNORECASE)`. The search
      tries start positions left to right and `.*?` stops at the first keyword end
      it can reach, so the match runs from the start of the line of the first
      keyword end to that end. */
  function PatternGroup(s: string, kw: string): (r: Option<string>)
    ensures r.Some? <==> FirstKeywordEnd(s, kw, 0).Some?
    ensures r.Some? ==> r.value == s[LineStart(s, FirstKeywordEnd(s, kw, 0).value)..FirstKeywordEnd(s, kw, 0).value]
  {
    match FirstKeywordEnd(s, kw, 0)
    case Some(e) => Some(s[LineStart(s, e)..e])
    case None => None
  }

  /** The position in `keywords` of the first pattern that matches. */
  function FirstMatching(s: string, keywords: seq<string>): (r: Option<nat>)
    ensures r.Some? ==> r.value < |keywords| && PatternGroup(s, keywords[r.value]).Some?
  {
    if keywords == [] then None
    else if PatternGroup(s, keywords[0]).Some? then Some(0)
    else match FirstMatching(s, keywords[1..])
      case Some(k) => Some(k + 1)
      case None => None
  }

  /** The patterns are tried in order: none before the one found matches, and
      when none is found no pattern matches. */
  lemma {:induction false} FirstMatchingIsFirst(s: string, keywords: seq<string>)
    ensures var r := FirstMatching(s, keywords);
      && (r.Some? ==> forall k :: 0 <= k < r.value ==> PatternGroup(s, keywords[k]).None?)
      && (r.None? ==> forall k :: 0 <= k < |keywords| ==> PatternGroup(s, keywords[k]).None?)
    decreases |keywords|
  {
    if keywords != [] && PatternGroup(s, keywords[0]).None? {
      FirstMatchingIsFirst(s, keywords[1..]);
      assert forall k :: 1 <= k < |keywords| ==> keywords[1..][k - 1] == keywords[k];
    }
  }

  /** `waterway and waterway.strip()`: present and not all whitespace. */
  predicate NonBlank(text: Option<string>) {
    text.Some? && Strip(text.value) != ""
  }

  /** `extract_waterway_name`. */
  function ExtractWaterwayName(location: Option<string>, waterway: Option<string>): (r: string)
    ensures NonBlank(waterway) ==> r == CleanText(waterway)
    ensures !NonBlank(waterway) && !NonBlank(location) ==> r == "Unknown"
    ensures !NonBlank(waterway) && NonBlank(location) ==>
      var clean := CleanText(location);
      var k := FirstMatching(clean, WaterwayKeywords);
      && (k.None? ==> r == clean)
      && (k.Some? ==> r == Strip(PatternGroup(clean, WaterwayKeywords[k.value]).value))
  {
    if NonBlank(waterway) then CleanText(waterway)
    else if NonBlank(location) then
      var clean := CleanText(location);
      match FirstMatching(clean, WaterwayKeywords)
      case Some(k) => Strip(PatternGroup(clean, WaterwayKeywords[k]).value)
      case None => clean
    else "Unknown"
  }

  /** Without line breaks every line starts at 0. */
  lemma {:induction false} LineStartNoBreak(s: string, e: nat)
    requires e <= |s| && '\n' !in s
    ensures LineStart(s, e) == 0
  {
    if e > 0 {
      assert s[e - 1] in s;
      LineStartNoBreak(s, e - 1);
    }
  }

  /** On text without line breaks the group is the shortest prefix that ends in the keyword. */
  lemma PatternGroupIsShortestPrefix(s: string, kw: string)
    requires '\n' !in s
    requires PatternGroup(s, kw).Some?
    ensures var g := PatternGroup(s, kw).value;
      g == s[..|g|] && KeywordEndsAt(s, kw, |g|)
      && forall j :: 0 <= j < |g| ==> !KeywordEndsAt(s, kw, j)
  {
    LineStartNoBreak(s, FirstKeywordEnd(s, kw, 0).value);
  }

  /** Stripping keeps a tail that begins and ends with non-whitespace. */
  lemma StripKeepsTail(g: string, k: nat)
    requires 0 < k <= |g| && !IsSpace(g[|g| - k]) && !IsSpace(g[|g| - 1])
    ensures k <= |Strip(g)| && Strip(g)[|Strip(g)| - k..] == g[|g| - k..]
  {
    TrimStartKeepsTail(g, k);
    TrimEndKeepsWord(TrimStart(g));
  }

  /** Leading whitespace stops before a non-whitespace character. */
  lemma TrimStartKeepsTail(g: string, k: nat)
    requires 0 < k <= |g| && !IsSpace(g[|g| - k])
    ensures var t := TrimStart(g); k <= |t| && t[|t| - 1] == g[|g| - 1] && t[|t| - k..] == g[|g| - k..]
  {
    var t := TrimStart(g);
    assert |t| >= k;
    assert t == g[|g| - |t|..];
  }

  /** Text ending in non-whitespace has no trailing whitespace to drop. */
  lemma TrimEndKeepsWord(t: string)
    requires t != [] && !IsSpace(t[|t| - 1])
    ensures TrimEnd(t) == t
  {
  }

  /** A keyword made only of letters. */
  predicate Word(kw: string) {
    |kw| > 0 && forall i :: 0 <= i < |kw| ==> IsUpper(kw[i]) || IsLowerLetter(kw[i])
  }

  /** A matched word holds only letters, so its line starts before it. */
  lemma MatchedWordIsLetters(s: string, kw: string, e: nat)
    requires Word(kw) && KeywordEndsAt(s, kw, e)
    ensures forall i :: e - |kw| <= i < e ==> !IsSpace(s[i])
    ensures LineStart(s, e) <= e - |kw|
  {
    var seg := s[e - |kw|..e];
    var low := LowerStr(seg);
    assert low == LowerStr(kw);
    forall i | e - |kw| <= i < e ensures !IsSpace(s[i]) {
      var j := i - (e - |kw|);
      assert seg[j] == s[i];
      assert low[j] == Lower(seg[j]);
      SameLowerNotSpace(seg[j], kw[j]);
    }
    LineStartAtMost(s, e, e - |kw|);
  }

  /** A character that lower-cases like a letter is not whitespace. */
  lemma SameLowerNotSpace(c: char, k: char)
    requires Lower(c) == Lower(k) && (IsUpper(k) || IsLowerLetter(k))
    ensures !IsSpace(c)
  {
  }

  /** A line that runs unbroken back to `p` starts at or before `p`. */
  lemma {:induction false} LineStartAtMost(s: string, e: nat, p: nat)
    requires p <= e <= |s|
    requires forall i :: p <= i < e ==> !IsSpace(s[i])
    ensures LineStart(s, e) <= p
    decreases e
  {
    if e > p {
      assert !IsSpace(s[e - 1]);
      LineStartAtMost(s, e - 1, p);
    }
  }

  /** The line-long group of a matched word ends in the matched characters. */
  lemma GroupEndsInMatch(s: string, kw: string, e: nat)
    requires Word(kw) && KeywordEndsAt(s, kw, e)
    ensures var g := s[LineStart(s, e)..e];
      |kw| <= |g| && g[|g| - |kw|..] == s[e - |kw|..e]
      && !IsSpace(g[|g| - |kw|]) && !IsSpace(g[|g| - 1])
  {
    MatchedWordIsLetters(s, kw, e);
  }

  /** `w` ends in `kw`, compared case-insensitively. */
  predicate EndsInWord(w: string, kw: string) {
    |kw| <= |w| && LowerStr(w[|w| - |kw|..]) == LowerStr(kw)
  }

  /** A text whose tail matches the keyword ends in the keyword. */
  lemma TailEndsInWord(w: string, tail: string, kw: string)
    requires |kw| <= |w| && w[|w| - |kw|..] == tail && LowerStr(tail) == LowerStr(kw)
    ensures EndsInWord(w, kw)
  {
  }

  /** A word survives the final strip: the group of a matched word, stripped,
      still ends in the word. */
  lemma StrippedGroupEndsInKeyword(s: string, kw: string, e: nat)
    requires Word(kw) && KeywordEndsAt(s, kw, e)
    ensures EndsInWord(Strip(s[LineStart(s, e)..e]), kw)
  {
    var g, tail := s[LineStart(s, e)..e], s[e - |kw|..e];
    GroupEndsInMatch(s, kw, e);
    assert LowerStr(tail) == LowerStr(kw);
    StrippedEndsInWord(g, tail, kw);
  }

  /** A group whose non-blank tail matches the keyword still ends in it once stripped. */
  lemma StrippedEndsInWord(g: string, tail: string, kw: string)
    requires 0 < |kw| <= |g| && g[|g| - |kw|..] == tail && LowerStr(tail) == LowerStr(kw)
    requires !IsSpace(g[|g| - |kw|]) && !IsSpace(g[|g| - 1])
    ensures EndsInWord(Strip(g), kw)
  {
    StripKeepsTail(g, |kw|);
    TailEndsInWord(Strip(g), tail, kw);
  }

  /** On one line of text, the first matching pattern's group is the shortest
      prefix ending in its keyword, and stripping it keeps the keyword at the end. */
  lemma FirstPatternGroupShape(clean: string, keywords: seq<string>)
    requires '\n' !in clean
    requires forall k :: 0 <= k < |keywords| ==> Word(keywords[k])
    requires FirstMatching(clean, keywords).Some?
    ensures var kw := keywords[FirstMatching(clean, keywords).value];
      var g := PatternGroup(clean, kw).value;
      && g == clean[..|g|] && KeywordEndsAt(clean, kw, |g|)
      && (forall j :: 0 <= j < |g| ==> !KeywordEndsAt(clean, kw, j))
      && EndsInWord(Strip(g), kw)
  {
    var kw := keywords[FirstMatching(clean, keywords).value];
    PatternGroupIsShortestPrefix(clean, kw);
    var e := FirstKeywordEnd(clean, kw, 0).value;
    StrippedGroupEndsInKeyword(clean, kw, e);
  }

  /** Each waterway keyword is a word. */
  lemma WaterwayKeywordsAreWords()
    ensures forall k :: 0 <= k < |WaterwayKeywords| ==> Word(WaterwayKeywords[k])
  {
    assert Word("Canal") && Word("River") && Word("Navigation") && Word("Waterway");
  }

  /** A location matched by a pattern yields the shortest prefix of the cleaned
      location that ends in that keyword, stripped; the name ends in the keyword. */
  lemma LocationNameIsKeywordPrefix(location: Option<string>, waterway: Option<string>)
    requires !NonBlank(waterway) && NonBlank(location)
    requires FirstMatching(CleanText(location), WaterwayKeywords).Some?
    ensures var clean := CleanText(location);
      var kw := WaterwayKeywords[FirstMatching(clean, WaterwayKeywords).value];
      var g := PatternGroup(clean, kw).value;
      var r := ExtractWaterwayName(location, waterway);
      && g == clean[..|g|] && KeywordEndsAt(clean, kw, |g|)
      && (forall j :: 0 <= j < |g| ==> !KeywordEndsAt(clean, kw, j))
      && r == Strip(g) && EndsInWord(r, kw)
  {
    CleanTextNoNewline(location);
    WaterwayKeywordsAreWords();
    FirstPatternGroupShape(CleanText(location), WaterwayKeywords);
  }

  // ---------------------------------------------------------------------
  // categorize_issue_type and get_severity_level
  // ---------------------------------------------------------------------

  /** The fields the classifiers read from an item. */
  datatype Issue = Issue(issueType: Field<string>, reason: Field<string>,
                         description: Field<string>, status: Field<string>)

  const EmergencyWords: seq<string> := ["emergency", "urgent", "breach", "collapse", "flood"]
  const PlannedWords: seq<string> := ["planned", "maintenance", "scheduled", "works"]
  const LockWords: seq<string> := ["lock", "gate", "chamber"]
  const BridgeWords: seq<string> := ["bridge", "swing", "lift"]
  const WaterLevelWords: seq<string> := ["water level", "low water", "high water", "drought"]
  const EnvironmentalWords: seq<string> := ["vegetation", "weed", "tree", "debris"]

  /** `any(word in text for word in words)`. */
  predicate AnyIn(words: seq<string>, text: string) {
    exists k :: 0 <= k < |words| && Contains(text, words[k])
  }

  /** `f"{issue_type} {reason} {description}"` of the lowercased fields; `None`
      when a field is `null`, where `.lower()` raises. */
  function CombinedText(item: Issue): (r: Option<string>)
    ensures r.Some? <==> !item.issueType.Null? && !item.reason.Null? && !item.description.Null?
    ensures r.Some? ==> r.value == LowerStr(GetOr(item.issueType, "").value) + " "
                                   + LowerStr(GetOr(item.reason, "").value) + " "
                                   + LowerStr(GetOr(item.description, "").value)
  {
    match (GetOr(item.issueType, ""), GetOr(item.reason, ""), GetOr(item.description, ""))
    case (Some(t), Some(r), Some(d)) => Some(LowerStr(t) + " " + LowerStr(r) + " " + LowerStr(d))
    case _ => None
  }

  /** The first-match chain of `categorize_issue_type` over the combined text. */
  function Category(text: string): (r: string)
    ensures r == "Emergency" <==> AnyIn(EmergencyWords, text)
    ensures r == "Planned Maintenance" <==> !AnyIn(EmergencyWords, text) && AnyIn(PlannedWords, text)
    ensures r == "Other" <==>
      && !AnyIn(EmergencyWords, text) && !AnyIn(PlannedWords, text)
      && !AnyIn(LockWords, text) && !AnyIn(BridgeWords, text)
      && !AnyIn(WaterLevelWords, text) && !AnyIn(EnvironmentalWords, text)
  {
    if AnyIn(EmergencyWords, text) then "Emergency"
    else if AnyIn(PlannedWords, text) then "Planned Maintenance"
    else if AnyIn(LockWords, text) then "Lock Issue"
    else if AnyIn(BridgeWords, text) then "Bridge Issue"
    else if AnyIn(WaterLevelWords, text) then "Water Level"
    else if AnyIn(EnvironmentalWords, text) then "Environmental"
    else "Other"
  }

  /** The categories as an ordered table of label and keywords. */
  const CategoryTable: seq<(string, seq<string>)> := [
    ("Emergency", EmergencyWords), ("Planned Maintenance", PlannedWords),
    ("Lock Issue", LockWords), ("Bridge Issue", BridgeWords),
    ("Water Level", WaterLevelWords), ("Environmental", EnvironmentalWords)]

  /** Reference reading: the label of the first table row with a keyword in the text. */
  function FirstLabel(table: seq<(string, seq<string>)>, text: string): (r: string)
    ensures r == "Other" || exists k :: 0 <= k < |table| && r == table[k].0
  {
    if table == [] then "Other"
    else if AnyIn(table[0].1, text) then table[0].0
    else
      var r := FirstLabel(table[1..], text);
      assert r != "Other" ==> exists k :: 0 <= k < |table[1..]| && r == table[1..][k].0;
      assert forall k :: 0 <= k < |table[1..]| ==> table[1..][k] == table[k + 1];
      r
  }

  /** The if-chain is the first-match reading of the table. */
  lemma CategoryIsFirstTableMatch(text: string)
    ensures Category(text) == FirstLabel(CategoryTable, text)
  {
    var t1 := CategoryTable[1..];
    var t2 := t1[1..];
    var t3 := t2[1..];
    var t4 := t3[1..];
    var t5 := t4[1..];
    assert t5 == [("Environmental", EnvironmentalWords)];
    FirstLabelStep(CategoryTable, text);
    FirstLabelStep(t1, text);
    FirstLabelStep(t2, text);
    FirstLabelStep(t3, text);
    FirstLabelStep(t4, text);
    FirstLabelStep(t5, text);
  }

  /** One step of the first-match reading. */
  lemma FirstLabelStep(table: seq<(string, seq<string>)>, text: string)
    requires table != []
    ensures FirstLabel(table, text) == if AnyIn(table[0].1, text) then table[0].0 else FirstLabel(table[1..], text)
  {
  }

  /** `categorize_issue_type`. */
  function CategorizeIssueType(item: Issue): (r: Option<string>)
    ensures r.Some? <==> CombinedText(item).Some?
    ensures r.Some? ==> r.value == Category(CombinedText(item).value)
  {
    match CombinedText(item)
    case Some(text) => Some(Category(text))
    case None => None
  }

  /** Every category is one of the seven labels. */
  lemma CategoryLabels(text: string)
    ensures Category(text) in {"Emergency", "Planned Maintenance", "Lock Issue", "Bridge Issue",
                               "Water Level", "Environmental", "Other"}
  {
  }

  /** The fields are joined by spaces before the search, so a phrase can span two
      fields: a type ending in `low` and a reason starting with `water` read as
      `low water`, which makes the water-level test fire and rules out `Other`. */
  lemma PhraseAcrossFields(item: Issue, t: string, r: string)
    requires item.issueType == Val(t) && item.reason == Val(r) && !item.description.Null?
    requires |t| >= 3 && LowerStr(t)[|t| - 3..] == "low"
    requires |r| >= 5 && LowerStr(r)[..5] == "water"
    ensures CategorizeIssueType(item).Some?
    ensures AnyIn(WaterLevelWords, CombinedText(item).value)
    ensures CategorizeIssueType(item).value != "Other"
  {
    var lt := LowerStr(t);
    var lr := LowerStr(r);
    var rest := LowerStr(GetOr(item.description, "").value);
    LowWaterSpansJoin(lt, lr, rest);
    assert WaterLevelWords[1] == "low water";
  }

  /** `low` ending one part and `water` starting the next meet across the joining space. */
  lemma LowWaterSpansJoin(lt: string, lr: string, rest: string)
    requires |lt| >= 3 && lt[|lt| - 3..] == "low"
    requires |lr| >= 5 && lr[..5] == "water"
    ensures Contains(lt + " " + lr + " " + rest, "low water")
  {
    var text := lt + " " + lr + " " + rest;
    var i := |lt| - 3;
    forall j | 0 <= j < 3 ensures text[i + j] == "low water"[j] {
      assert text[i + j] == lt[i + j] == lt[|lt| - 3..][j];
    }
    forall j | 4 <= j < 9 ensures text[i + j] == "low water"[j] {
      assert text[i + j] == lr[j - 4] == lr[..5][j - 4];
    }
    assert text[i + 3] == ' ';
    assert "low water" <= text[i..];
    ContainsIff(text, "low water");
  }

  /** `get_severity_level`: the category first, then the lowercased status. */
  function SeverityLevel(item: Issue): (r: Option<string>)
    ensures r.Some? <==> CategorizeIssueType(item).Some? && !item.status.Null?
    ensures r.Some? && CategorizeIssueType(item).value == "Emergency" ==> r.value == "Critical"
    ensures r.Some? && CategorizeIssueType(item).value != "Emergency" ==>
      var status := LowerStr(GetOr(item.status, "").value);
      && (r.value == "High" <==> Contains(status, "closed") || Contains(status, "suspended"))
      && (r.value == "Medium" <==> !Contains(status, "closed") && !Contains(status, "suspended")
                                   && (Contains(status, "restricted") || Contains(status, "limited")))
      && (r.value == "Low" <==> !Contains(status, "closed") && !Contains(status, "suspended")
                                && !Contains(status, "restricted") && !Contains(status, "limited"))
  {
    match CategorizeIssueType(item)
    case None => None
    case Some(category) =>
      match GetOr(item.status, "")
      case None => None
      case Some(s) =>
        var status := LowerStr(s);
        if category == "Emergency" then Some("Critical")
        else if Contains(status, "closed") || Contains(status, "suspended") then Some("High")
        else if Contains(status, "restricted") || Contains(status, "limited") then Some("Medium")
        else Some("Low")
  }

  /** Severity as a rank, `Low` lowest. */
  function SeverityRank(level: string): nat {
    if level == "Critical" then 3 else if level == "High" then 2 else if level == "Medium" then 1 else 0
  }

  /** An emergency is critical whatever its status, and a closed or suspended
      status is never below `High`. */
  lemma SeverityPrecedence(item: Issue)
    requires SeverityLevel(item).Some?
    ensures SeverityLevel(item).value == "Critical" <==> CategorizeIssueType(item).value == "Emergency"
    ensures Contains(LowerStr(GetOr(item.status, "").value), "closed") ==> SeverityRank(SeverityLevel(item).value) >= 2
  {
  }

  // ---------------------------------------------------------------------
  // format_duration
  // ---------------------------------------------------------------------

  /** What parsing the dates and subtracting gives: whole seconds from start to
      end (or to now, when there is no end), a parse failure (`ValueError`), or a
      subtraction of a naive from an aware time (`TypeError`, which the Python code
      does not catch). */
  datatype Elapsed = Seconds(total: int) | Unparsable | NaiveAwareMix

  const SecondsPerDay := 86400
  const SecondsPerHour := 3600

  /** `duration.days` and `duration.seconds` of a `timedelta`: floor division by a day. */
  function Days(total: int): (r: int)
    ensures r * SecondsPerDay <= total < (r + 1) * SecondsPerDay
  {
    total / SecondsPerDay
  }
  function DaySeconds(total: int): (r: nat)
    ensures r < SecondsPerDay
    ensures Days(total) * SecondsPerDay + r == total
  {
    total % SecondsPerDay
  }

  /** The wording for an issue with an end date. */
  function ClosedDuration(total: int): string {
    if Days(total) > 0 then NatToString(Days(total)) + " days"
    else if DaySeconds(total) > SecondsPerHour then NatToString(DaySeconds(total) / SecondsPerHour) + " hours"
    else NatToString(DaySeconds(total) / 60) + " minutes"
  }

  /** The wording for an ongoing issue. */
  function OngoingDuration(total: int): string {
    if Days(total) > 0 then "Ongoing for " + NatToString(Days(total)) + " days"
    else if DaySeconds(total) > SecondsPerHour then "Ongoing for " + NatToString(DaySeconds(total) / SecondsPerHour) + " hours"
    else "Recently started"
  }

  /** `format_duration`; `Err` is the uncaught `TypeError`. */
  function FormatDuration(start: Option<string>, end: Option<string>, elapsed: Elapsed): (r: Result<string, string>)
    ensures start.None? || start.value == "" ==> r == Ok("Duration unknown")
    ensures start.Some? && start.value != "" && elapsed.Unparsable? ==> r == Ok("Duration unknown")
    ensures start.Some? && start.value != "" ==> (r.Err? <==> elapsed.NaiveAwareMix?)
    ensures start.Some? && start.value != "" && elapsed.Seconds? ==>
      r == Ok(if end.Some? && end.value != "" then ClosedDuration(elapsed.total) else OngoingDuration(elapsed.total))
  {
    if start.None? || start.value == "" then Ok("Duration unknown")
    else match elapsed
      case Unparsable => Ok("Duration unknown")
      case NaiveAwareMix => Err("TypeError")
      case Seconds(total) =>
        if end.Some? && end.value != "" then Ok(ClosedDuration(total)) else Ok(OngoingDuration(total))
  }

  /** `n` whole days or more (n >= 1) are reported as `n days`. */
  lemma ClosedDays(total: int, n: nat)
    requires n >= 1 && n * SecondsPerDay <= total < (n + 1) * SecondsPerDay
    ensures ClosedDuration(total) == NatToString(n) + " days"
    ensures OngoingDuration(total) == "Ongoing for " + NatToString(n) + " days"
  {
  }

  /** A `timedelta` of `d` days (none or fewer) and `s` seconds over an hour
      is reported in the whole hours of `s`, 1 to 23, whatever the sign of `d`. */
  lemma PartDayHours(total: int, d: int, s: nat, h: nat)
    requires d <= 0 && s < SecondsPerDay && total == d * SecondsPerDay + s
    requires SecondsPerHour < s && h * SecondsPerHour <= s < (h + 1) * SecondsPerHour
    ensures 1 <= h <= 23
    ensures ClosedDuration(total) == NatToString(h) + " hours"
    ensures OngoingDuration(total) == "Ongoing for " + NatToString(h) + " hours"
  {
    assert Days(total) == d && DaySeconds(total) == s;
  }

  /** A `timedelta` of `d` days (none or fewer) and at most an hour of seconds
      is reported in the whole minutes of `s`, 0 to 60, or as just started. */
  lemma PartDayMinutes(total: int, d: int, s: nat, m: nat)
    requires d <= 0 && s < SecondsPerDay && total == d * SecondsPerDay + s
    requires s <= SecondsPerHour && m * 60 <= s < (m + 1) * 60
    ensures m <= 60
    ensures ClosedDuration(total) == NatToString(m) + " minutes"
    ensures OngoingDuration(total) == "Recently started"
  {
    assert Days(total) == d && DaySeconds(total) == s;
  }

  /** Under a day but over an hour is reported in whole hours, 1 to 23. */
  lemma ClosedHours(total: int, h: nat)
    requires SecondsPerHour < total < SecondsPerDay
    requires h * SecondsPerHour <= total < (h + 1) * SecondsPerHour
    ensures 1 <= h <= 23
    ensures ClosedDuration(total) == NatToString(h) + " hours"
    ensures OngoingDuration(total) == "Ongoing for " + NatToString(h) + " hours"
  {
    PartDayHours(total, 0, total, h);
  }

  /** An hour or less is reported in whole minutes, 0 to 60, or as just started. */
  lemma ClosedMinutes(total: int, m: nat)
    requires 0 <= total <= SecondsPerHour
    requires m * 60 <= total < (m + 1) * 60
    ensures m <= 60
    ensures ClosedDuration(total) == NatToString(m) + " minutes"
    ensures OngoingDuration(total) == "Recently started"
  {
    PartDayMinutes(total, 0, total, m);
  }

  /** A negative elapsed time (an end before the start, or a start still in the
      future) has negative days, so it never reads in days: it reads in hours or
      minutes of its normalised seconds, or as just started when ongoing. */
  lemma NegativeDurationWording(total: int)
    requires total < 0
    ensures Days(total) < 0
    ensures OngoingDuration(total) == "Recently started"
      || exists h: nat :: 1 <= h <= 23 && OngoingDuration(total) == "Ongoing for " + NatToString(h) + " hours"
    ensures (exists h: nat :: 1 <= h <= 23 && ClosedDuration(total) == NatToString(h) + " hours")
      || (exists m: nat :: m <= 60 && ClosedDuration(total) == NatToString(m) + " minutes")
  {
    var d, s := Days(total), DaySeconds(total);
    if s > SecondsPerHour {
      PartDayHours(total, d, s, s / SecondsPerHour);
    } else {
      PartDayMinutes(total, d, s, s / 60);
    }
  }

  /** A start three days and two hours in the future reads `Ongoing for 22 hours`:
      `days == -4` and `seconds == 79200`. */
  lemma FutureStartReadsHours()
    ensures OngoingDuration(-(3 * SecondsPerDay + 2 * SecondsPerHour)) == "Ongoing for 22 hours"
  {
    PartDayHours(-(3 * SecondsPerDay + 2 * SecondsPerHour), -4, 79200, 22);
    assert NatToString(22) == "22";
  }

  /** Exactly one hour is not "over an hour": it reads `60 minutes`. */
  lemma ExactHourReadsAsMinutes()
    ensures ClosedDuration(3600) == "60 minutes"
  {
    ClosedMinutes(3600, 60);
    assert NatToString(60) == "60";
  }

  /** An end one second before the start reads as `23 hours`: the negative
      duration has `days == -1` and `seconds == 86399`. */
  lemma EndJustBeforeStart()
    ensures ClosedDuration(-1) == "23 hours"
  {
    assert Days(-1) == -1 && DaySeconds(-1) == 86399;
    assert NatToString(23) == "23";
  }
}
