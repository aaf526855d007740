/** The string helpers of the backend: whitespace as Python sees it, strip,
    the whitespace collapsing that ends text extraction, the content cap and
    the URL-shape test. */
module Strings {

  /** Python's `str.isspace()`. It is also the set of characters that `\s`
      matches in a `str` pattern and that `str.strip()` removes. */
  predicate IsSpace(c: char) {
    ('\t' <= c <= '\r') || ('\U{1C}' <= c <= '\U{1F}') || c == ' '
    || c == '\U{85}' || c == '\U{A0}' || c == '\U{1680}'
    || ('\U{2000}' <= c <= '\U{200A}') || c == '\U{2028}' || c == '\U{2029}'
    || c == '\U{202F}' || c == '\U{205F}' || c == '\U{3000}'
  }

  /** Among ASCII, the whitespace is tab, line feed, vertical tab, form
      feed, carriage return, the four separators U+001C to U+001F and the
      space; letters and digits never are, nor is anything above U+3000. */
  lemma WhitespaceSet(c: char)
    ensures c < '\U{80}' ==> (IsSpace(c) <==> ('\t' <= c <= '\r') || ('\U{1C}' <= c <= ' '))
    ensures IsSpace(c) ==> !('0' <= c <= '9') && !('a' <= c <= 'z') && !('A' <= c <= 'Z')
    ensures IsSpace(c) ==> c <= '\U{3000}'
  {
  }

  predicate AllSpace(s: string) {
    forall i :: 0 <= i < |s| ==> IsSpace(s[i])
  }

  /** Neither the first nor the last character is whitespace. */
  predicate NoEdgeSpace(s: string) {
    s == [] || (!IsSpace(s[0]) && !IsSpace(s[|s| - 1]))
  }

  /** The characters at `i` and `i + 1` are both whitespace. */
  predicate SpacePair(s: string, i: int) {
    0 <= i < |s| - 1 && IsSpace(s[i]) && IsSpace(s[i + 1])
  }

  /** No two neighbouring characters are both whitespace. */
  ghost predicate NoDoubleSpace(s: string) {
    forall i :: !SpacePair(s, i)
  }

  /** The only whitespace character that occurs is the plain space. */
  predicate SpacesAreBlank(s: string) {
    forall i :: 0 <= i < |s| && IsSpace(s[i]) ==> s[i] == ' '
  }

  /** What `re.sub(r"\s+", " ", t).strip()` produces. */
  ghost predicate IsNormal(s: string) {
    NoEdgeSpace(s) && NoDoubleSpace(s) && SpacesAreBlank(s)
  }

  /** The characters of `s` that are not whitespace, in order. */
  function NonSpace(s: string): string {
    if s == [] then []
    else (if IsSpace(s[0]) then [] else [s[0]]) + NonSpace(s[1..])
  }

  /** `s.lstrip()`: drops the leading whitespace and nothing else. */
  function TrimStart(s: string): (r: string)
    ensures |r| <= |s|
    ensures r != [] ==> r[|r| - 1] == s[|s| - 1]
    ensures r == [] || !IsSpace(r[0])
    ensures forall i :: 0 <= i < |s| - |r| ==> IsSpace(s[i])
  {
    if s != [] && IsSpace(s[0]) then TrimStart(s[1..]) else s
  }

  /** `s.rstrip()`: drops the trailing whitespace and nothing else. */
  function TrimEnd(s: string): (r: string)
    ensures |r| <= |s|
    ensures r != [] ==> r[0] == s[0]
    ensures r == [] || !IsSpace(r[|r| - 1])
    ensures forall i :: |r| <= i < |s| ==> IsSpace(s[i])
  {
    if s != [] && IsSpace(s[|s| - 1]) then TrimEnd(s[..|s| - 1]) else s
  }

  /** What `TrimStart` keeps is a suffix of its input. */
  lemma {:induction false} TrimStartIsSuffix(s: string)
    ensures TrimStart(s) == s[|s| - |TrimStart(s)|..]
  {
    if s != [] && IsSpace(s[0]) {
      TrimStartIsSuffix(s[1..]);
      assert s[1..][|s| - 1 - |TrimStart(s)|..] == s[|s| - |TrimStart(s)|..];
    }
  }

  /** What `TrimEnd` keeps is a prefix of its input. */
  lemma {:induction false} TrimEndIsPrefix(s: string)
    ensures TrimEnd(s) == s[..|TrimEnd(s)|]
  {
    if s != [] && IsSpace(s[|s| - 1]) {
      var s' := s[..|s| - 1];
      TrimEndIsPrefix(s');
      assert s'[..|TrimEnd(s)|] == s[..|TrimEnd(s)|];
    }
  }

  /** Where `Strip(s)` begins in `s`. */
  function StripOffset(s: string): (i: nat)
    ensures i <= |s|
  {
    |s| - |TrimStart(s)|
  }

  /** `s.strip()`: what is left when the whitespace at both ends is cut off. */
  function Strip(s: string): (r: string)
    ensures NoEdgeSpace(r) && |r| <= |s|
    ensures r == [] <==> AllSpace(s)
  {
    TrimStartIsSuffix(s);
    TrimEnd(TrimStart(s))
  }

  /** Strip cuts only whitespace, and only at the two ends: its result is the
      slice of `s` that starts at `StripOffset(s)`. */
  lemma StripIsSlice(s: string)
    ensures StripOffset(s) + |Strip(s)| <= |s|
    ensures Strip(s) == s[StripOffset(s)..StripOffset(s) + |Strip(s)|]
    ensures forall i :: 0 <= i < StripOffset(s) ==> IsSpace(s[i])
    ensures forall i :: StripOffset(s) + |Strip(s)| <= i < |s| ==> IsSpace(s[i])
  {
    TrimStartIsSuffix(s);
    TrimEndIsPrefix(TrimStart(s));
  }

  /** The leading whitespace of `a + b` extends into `b` only when all of `a`
      is whitespace. */
  lemma {:induction false} TrimStartConcat(a: string, b: string)
    requires AllSpace(a)
    ensures TrimStart(a + b) == TrimStart(b)
  {
    if a != [] {
      assert (a + b)[0] == a[0] && IsSpace(a[0]);
      assert (a + b)[1..] == a[1..] + b;
      assert AllSpace(a[1..]) by {
        forall i | 0 <= i < |a[1..]| ensures IsSpace(a[1..][i]) { assert a[1..][i] == a[i + 1]; }
      }
      TrimStartConcat(a[1..], b);
    } else {
      assert a + b == b;
    }
  }

  lemma {:induction false} TrimEndConcat(a: string, b: string)
    requires AllSpace(b)
    ensures TrimEnd(a + b) == TrimEnd(a)
  {
    if b != [] {
      assert (a + b)[|a + b| - 1] == b[|b| - 1] && IsSpace(b[|b| - 1]);
      assert (a + b)[..|a + b| - 1] == a + b[..|b| - 1];
      var b' := b[..|b| - 1];
      assert AllSpace(b') by {
        forall i | 0 <= i < |b'| ensures IsSpace(b'[i]) { assert b'[i] == b[i]; }
      }
      TrimEndConcat(a, b[..|b| - 1]);
    } else {
      assert a + b == a;
    }
  }

  /** Strip is characterised by its cut: whatever whitespace surrounds a
      middle part that neither begins nor ends with whitespace is removed,
      and exactly that middle part is left. */
  lemma StripSurrounded(a: string, m: string, b: string)
    requires AllSpace(a) && AllSpace(b) && NoEdgeSpace(m)
    ensures Strip(a + m + b) == m
  {
    if m == [] {
      assert AllSpace(a + m + b) by {
        forall i | 0 <= i < |a + m + b| ensures IsSpace((a + m + b)[i]) {
          if i >= |a| { assert (a + m + b)[i] == b[i - |a|]; }
        }
      }
    } else {
      assert a + m + b == a + (m + b);
      TrimStartConcat(a, m + b);
      assert (m + b)[0] == m[0];
      TrimEndConcat(m, b);
    }
  }

  /** Strip only removes whitespace. */
  lemma StripKeepsNonSpace(s: string)
    ensures NonSpace(Strip(s)) == NonSpace(s)
  {
    var p, q := StripParts(s);
    var r := Strip(s);
    assert s == p + (r + q);
    NonSpaceConcat(p, r + q);
    NonSpaceConcat(r, q);
    NonSpaceOfSpaces(p);
    NonSpaceOfSpaces(q);
  }

  /** Stripping twice is stripping once. */
  lemma StripIdempotent(s: string)
    ensures Strip(Strip(s)) == Strip(s)
  {
    StripSurrounded([], Strip(s), []);
    assert [] + Strip(s) + [] == Strip(s);
  }

  /** Extra whitespace around a string does not change what strip keeps. */
  lemma StripPadded(w1: string, u: string, w2: string)
    requires AllSpace(w1) && AllSpace(w2)
    ensures Strip(w1 + u + w2) == Strip(u)
  {
    var p, q := StripParts(u);
    var r := Strip(u);
    AllSpaceConcat(w1, p);
    AllSpaceConcat(q, w2);
    Regroup(w1, p, r, q, w2);
    StripSurrounded(w1 + p, r, q + w2);
  }

  /** A string is the whitespace strip removes from its front, what strip
      keeps, and the whitespace strip removes from its back. */
  lemma StripParts(s: string) returns (p: string, q: string)
    ensures AllSpace(p) && AllSpace(q) && s == p + Strip(s) + q
  {
    StripIsSlice(s);
    var i, r := StripOffset(s), Strip(s);
    p, q := s[..i], s[i + |r|..];
    assert AllSpace(p) by {
      forall k | 0 <= k < |p| ensures IsSpace(p[k]) { assert p[k] == s[k]; }
    }
    assert AllSpace(q) by {
      forall k | 0 <= k < |q| ensures IsSpace(q[k]) { assert q[k] == s[i + |r| + k]; }
    }
    assert s == p + r + q;
  }

  lemma Regroup(a: string, b: string, c: string, d: string, e: string)
    ensures a + (b + c + d) + e == (a + b) + c + (d + e)
  {
  }

  lemma AllSpaceConcat(a: string, b: string)
    requires AllSpace(a) && AllSpace(b)
    ensures AllSpace(a + b)
  {
    forall i | 0 <= i < |a + b| ensures IsSpace((a + b)[i]) {
      if i >= |a| { assert (a + b)[i] == b[i - |a|]; }
    }
  }

  lemma {:induction false} NonSpaceConcat(a: string, b: string)
    ensures NonSpace(a + b) == NonSpace(a) + NonSpace(b)
  {
    if a != [] {
      assert (a + b)[0] == a[0];
      assert (a + b)[1..] == a[1..] + b;
      NonSpaceConcat(a[1..], b);
    } else {
      assert a + b == b;
    }
  }

  lemma {:induction false} NonSpaceOfSpaces(s: string)
    requires AllSpace(s)
    ensures NonSpace(s) == []
  {
    if s != [] {
      NonSpaceOfSpaces(s[1..]);
    }
  }

  /** `re.sub(r"\s+", " ", s)`: every maximal run of whitespace becomes one
      plain space; everything else is kept in order. */
  function Collapse(s: string): (r: string)
    ensures |r| <= |s|
    ensures r == [] <==> s == []
    ensures r != [] ==> (IsSpace(r[0]) <==> IsSpace(s[0]))
    ensures r != [] ==> (IsSpace(r[|r| - 1]) <==> IsSpace(s[|s| - 1]))
    ensures SpacesAreBlank(r)
    decreases |s|
  {
    if s == [] then []
    else if IsSpace(s[0]) then " " + Collapse(TrimStart(s))
    else [s[0]] + Collapse(s[1..])
  }

  /** Collapsing leaves no two whitespace characters side by side. */
  lemma {:induction false} CollapseSpacing(s: string)
    ensures NoDoubleSpace(Collapse(s))
    decreases |s|
  {
    if s == [] {
    } else if IsSpace(s[0]) {
      CollapseSpacing(TrimStart(s));
      PrependKeepsSpacing(' ', Collapse(TrimStart(s)));
    } else {
      CollapseSpacing(s[1..]);
      PrependKeepsSpacing(s[0], Collapse(s[1..]));
    }
  }

  /** A character put in front keeps the single spaces, unless both it and
      the old first character are whitespace. */
  lemma PrependKeepsSpacing(c: char, t: string)
    requires NoDoubleSpace(t)
    requires IsSpace(c) ==> t == [] || !IsSpace(t[0])
    ensures NoDoubleSpace([c] + t)
  {
    var r := [c] + t;
    forall i ensures !SpacePair(r, i) {
      if 0 < i < |r| - 1 {
        assert r[i] == t[i - 1] && r[i + 1] == t[i];
        assert !SpacePair(t, i - 1);
      }
    }
  }

  /** Collapsing only changes whitespace. */
  lemma {:induction false} CollapseKeepsNonSpace(s: string)
    ensures NonSpace(Collapse(s)) == NonSpace(s)
    decreases |s|
  {
    if s == [] {
    } else if IsSpace(s[0]) {
      var t := TrimStart(s);
      TrimStartIsSuffix(s);
      CollapseKeepsNonSpace(t);
      NonSpaceConcat(" ", Collapse(t));
      assert s == s[..|s| - |t|] + t;
      NonSpaceConcat(s[..|s| - |t|], t);
      NonSpaceOfSpaces(s[..|s| - |t|]);
      NonSpaceOfSpaces(" ");
    } else {
      CollapseKeepsNonSpace(s[1..]);
      NonSpaceConcat([s[0]], Collapse(s[1..]));
      assert ([s[0]] + Collapse(s[1..]))[1..] == Collapse(s[1..]);
    }
  }

  /** Text that already has single plain spaces is left alone. */
  lemma {:induction false} CollapseFixes(s: string)
    requires NoDoubleSpace(s) && SpacesAreBlank(s)
    ensures Collapse(s) == s
    decreases |s|
  {
    if s != [] {
      var t := s[1..];
      assert t == s[1..1 + |t|];
      SliceKeepsSpacing(s, 1, |t|);
      if IsSpace(s[0]) {
        assert !SpacePair(s, 0);
        assert t == [] || !IsSpace(t[0]);
        assert TrimStart(s) == TrimStart(t) == t;
      }
      CollapseFixes(t);
      assert s == [s[0]] + t;
    }
  }

  /** Leading whitespace of `a + c` stays inside `a` when `a` ends with a
      non-whitespace character. */
  lemma {:induction false} TrimStartBeforeWord(a: string, c: string)
    requires a != [] && !IsSpace(a[|a| - 1])
    ensures TrimStart(a + c) == TrimStart(a) + c
  {
    assert (a + c)[0] == a[0];
    if IsSpace(a[0]) {
      assert (a + c)[1..] == a[1..] + c;
      TrimStartBeforeWord(a[1..], c);
    }
  }

  /** A string that starts with whitespace collapses to one space followed
      by the collapse of the rest after the run. */
  lemma CollapseLeadingRun(s: string)
    requires s != [] && IsSpace(s[0])
    ensures Collapse(s) == " " + Collapse(TrimStart(s))
  {
  }

  /** A string that starts with a word character keeps it. */
  lemma CollapseLeadingWord(s: string)
    requires s != [] && !IsSpace(s[0])
    ensures Collapse(s) == [s[0]] + Collapse(s[1..])
  {
  }

  /** A whitespace run between two words becomes exactly one plain space,
      and the text on either side is collapsed on its own. */
  lemma {:induction false} CollapseRun(a: string, w: string, b: string)
    requires a == [] || !IsSpace(a[|a| - 1])
    requires w != [] && AllSpace(w)
    requires b == [] || !IsSpace(b[0])
    ensures Collapse(a + w + b) == Collapse(a) + " " + Collapse(b)
    decreases |a|
  {
    if a == [] {
      CollapseRunFirst(w, b);
    } else if IsSpace(a[0]) {
      CollapseRun(TrimStart(a), w, b);
      CollapseRunAfterSpace(a, w, b);
    } else {
      CollapseRun(a[1..], w, b);
      CollapseRunAfterWord(a, w, b);
    }
  }

  lemma CollapseRunFirst(w: string, b: string)
    requires w != [] && AllSpace(w)
    requires b == [] || !IsSpace(b[0])
    ensures Collapse([] + w + b) == Collapse([]) + " " + Collapse(b)
  {
    var s := [] + w + b;
    assert s == w + b && s[0] == w[0];
    TrimStartConcat(w, b);
  }

  lemma CollapseRunAfterSpace(a: string, w: string, b: string)
    requires a != [] && IsSpace(a[0]) && !IsSpace(a[|a| - 1])
    requires Collapse(TrimStart(a) + w + b) == Collapse(TrimStart(a)) + " " + Collapse(b)
    ensures Collapse(a + w + b) == Collapse(a) + " " + Collapse(b)
  {
    var s, t := a + w + b, TrimStart(a);
    TrimStartOfJoin(a, w, b);
    CollapseLeadingRun(s);
    CollapseLeadingRun(a);
    Assoc(" ", Collapse(t), " ", Collapse(b));
  }

  lemma TrimStartOfJoin(a: string, w: string, b: string)
    requires a != [] && !IsSpace(a[|a| - 1])
    ensures (a + w + b)[0] == a[0]
    ensures TrimStart(a + w + b) == TrimStart(a) + w + b
  {
    assert a + w + b == a + (w + b);
    TrimStartBeforeWord(a, w + b);
    Assoc(TrimStart(a), w, b, []);
  }

  lemma CollapseRunAfterWord(a: string, w: string, b: string)
    requires a != [] && !IsSpace(a[0])
    requires Collapse(a[1..] + w + b) == Collapse(a[1..]) + " " + Collapse(b)
    ensures Collapse(a + w + b) == Collapse(a) + " " + Collapse(b)
  {
    var s := a + w + b;
    TailOfJoin(a, w, b);
    CollapseLeadingWord(s);
    CollapseLeadingWord(a);
    Assoc([a[0]], Collapse(a[1..]), " ", Collapse(b));
  }

  lemma TailOfJoin(a: string, w: string, b: string)
    requires a != []
    ensures (a + w + b)[0] == a[0] && (a + w + b)[1..] == a[1..] + w + b
  {
  }

  lemma Assoc(p: string, x: string, y: string, z: string)
    ensures p + (x + y + z) == (p + x) + y + z
  {
  }

  /** The whitespace tail of `extract_visible_text`: collapse, then strip. */
  function Normalise(s: string): (r: string)
    ensures IsNormal(r)
    ensures |r| <= |s|
    ensures r == [] <==> AllSpace(s)
  {
    CollapseSpacing(s);
    StripOfSpaced(Collapse(s));
    CollapseAllSpace(s);
    Strip(Collapse(s))
  }

  /** Stripping a string with single plain spaces gives a normal string. */
  lemma StripOfSpaced(c: string)
    requires NoDoubleSpace(c) && SpacesAreBlank(c)
    ensures IsNormal(Strip(c))
  {
    StripIsSlice(c);
    SliceKeepsSpacing(c, StripOffset(c), |Strip(c)|);
  }

  /** Any slice of a string with single plain spaces has single plain spaces. */
  lemma SliceKeepsSpacing(c: string, o: nat, n: nat)
    requires o + n <= |c| && NoDoubleSpace(c) && SpacesAreBlank(c)
    ensures NoDoubleSpace(c[o..o + n]) && SpacesAreBlank(c[o..o + n])
  {
    var r := c[o..o + n];
    forall i | 0 <= i < |r| ensures r[i] == c[o + i] { }
    forall i ensures !SpacePair(r, i) {
      if 0 <= i < |r| - 1 {
        assert !SpacePair(c, o + i);
      }
    }
  }

  /** Collapsing leaves only whitespace exactly when there was only whitespace. */
  lemma CollapseAllSpace(s: string)
    ensures AllSpace(Collapse(s)) <==> AllSpace(s)
  {
    CollapseKeepsNonSpace(s);
    NonSpaceEmpty(s);
    NonSpaceEmpty(Collapse(s));
  }

  /** A string has no non-whitespace character exactly when it is all
      whitespace. */
  lemma {:induction false} NonSpaceEmpty(s: string)
    ensures NonSpace(s) == [] <==> AllSpace(s)
  {
    if s != [] {
      NonSpaceEmpty(s[1..]);
      assert AllSpace(s) <==> IsSpace(s[0]) && AllSpace(s[1..]) by {
        if IsSpace(s[0]) && AllSpace(s[1..]) {
          forall i | 0 <= i < |s| ensures IsSpace(s[i]) {
            if i > 0 { assert s[i] == s[1..][i - 1]; }
          }
        }
      }
    }
  }

  /** Normalising keeps every non-whitespace character, in order. */
  lemma NormaliseKeepsNonSpace(s: string)
    ensures NonSpace(Normalise(s)) == NonSpace(s)
  {
    CollapseKeepsNonSpace(s);
    StripKeepsNonSpace(Collapse(s));
  }

  /** The normal strings are exactly the fixed points of Normalise. */
  lemma NormalFixedPoint(s: string)
    ensures Normalise(s) == s <==> IsNormal(s)
  {
    if IsNormal(s) {
      CollapseFixes(s);
      StripSurrounded([], s, []);
      assert [] + s + [] == s;
    }
  }

  /** Two normal pieces of text with whitespace between them come out joined
      by one plain space. */
  lemma NormaliseJoins(a: string, w: string, b: string)
    requires a != [] && b != [] && IsNormal(a) && IsNormal(b)
    requires w != [] && AllSpace(w)
    ensures Normalise(a + w + b) == a + " " + b
  {
    CollapseRun(a, w, b);
    CollapseFixes(a);
    CollapseFixes(b);
    StripSurrounded([], a + " " + b, []);
    assert [] + (a + " " + b) + [] == a + " " + b;
  }

  /** "Hello   world" is normalised to "Hello world". */
  lemma HelloWorld()
    ensures Normalise("Hello   world") == "Hello world"
  {
    var a, w, b := "Hello", "   ", "world";
    assert a + w + b == "Hello   world";
    assert a + " " + b == "Hello world";
    assert IsNormal(a) by {
      forall i ensures !SpacePair(a, i) { }
    }
    assert IsNormal(b) by {
      forall i ensures !SpacePair(b, i) { }
    }
    NormaliseJoins(a, w, b);
  }

  /** Normalising twice is normalising once. */
  lemma NormaliseIdempotent(s: string)
    ensures Normalise(Normalise(s)) == Normalise(s)
  {
    NormalFixedPoint(Normalise(s));
  }

  /** `MAX_TEXT_CHARS`: the content budget, in characters. */
  const MaxTextChars: nat := 4000

  /** `text[:MAX_TEXT_CHARS] if len(text) > MAX_TEXT_CHARS else text`: a hard
      cut after the first 4000 characters. */
  function Cap(s: string): (r: string)
    ensures r <= s
    ensures |r| <= MaxTextChars
    ensures |s| <= MaxTextChars ==> r == s
    ensures |s| > MaxTextChars ==> |r| == MaxTextChars
  {
    if |s| > MaxTextChars then s[..MaxTextChars] else s
  }

  /** Capping keeps the single plain spaces and the clean start of a normal
      string; only its end may now be a space left by the cut. */
  lemma CapOfNormal(s: string)
    requires IsNormal(s)
    ensures var r := Cap(s);
      NoDoubleSpace(r) && SpacesAreBlank(r) && (r == [] || !IsSpace(r[0]))
  {
    var r := Cap(s);
    assert r == s[0..|r|];
    SliceKeepsSpacing(s, 0, |r|);
  }

  /** Compares a character with a lower-case pattern character under Python's
      `re.IGNORECASE` on a `str` pattern, for the characters of "https://":
      a letter also matches its upper-case form, and "s" also matches U+017F
      LATIN SMALL LETTER LONG S, whose upper case is "S". */
  predicate MatchesIgnoringCase(c: char, p: char) {
    c == p
    || ('a' <= p <= 'z' && c as int == p as int - 32)
    || (p == 's' && c == '\U{17F}')
  }

  /** `t` begins with the lower-case pattern `p`, ignoring case. */
  predicate PrefixIgnoringCase(p: string, t: string) {
    |p| <= |t| && forall i :: 0 <= i < |p| ==> MatchesIgnoringCase(t[i], p[i])
  }

  /** The pattern `^https?://` under `re.I`, read letter by letter: "h", "t",
      "t", "p", an optional "s", then ":", "/", "/". */
  predicate MatchesScheme(t: string): (b: bool)
    // The pattern matches exactly the two case-insensitive prefixes.
    ensures b <==> PrefixIgnoringCase("http://", t) || PrefixIgnoringCase("https://", t)
  {
    var p, q := "http://", "https://";
    assert p[0] == 'h' && p[1] == 't' && p[2] == 't' && p[3] == 'p' && p[4] == ':' && p[5] == '/' && p[6] == '/';
    assert q[0] == 'h' && q[1] == 't' && q[2] == 't' && q[3] == 'p' && q[4] == 's' && q[5] == ':' && q[6] == '/' && q[7] == '/';
    |t| >= 7
    && MatchesIgnoringCase(t[0], 'h') && MatchesIgnoringCase(t[1], 't')
    && MatchesIgnoringCase(t[2], 't') && MatchesIgnoringCase(t[3], 'p')
    && ((t[4] == ':' && t[5] == '/' && t[6] == '/')
        || (|t| >= 8 && MatchesIgnoringCase(t[4], 's') && t[5] == ':' && t[6] == '/' && t[7] == '/'))
  }

  /** `is_url`: the pattern matches at the start of `s.strip()`. */
  function IsUrl(s: string): (b: bool)
    ensures b <==> PrefixIgnoringCase("http://", Strip(s)) || PrefixIgnoringCase("https://", Strip(s))
  {
    MatchesScheme(Strip(s))
  }

  /** A scheme other than http or https is not a URL here. */
  lemma FtpIsNotUrl()
    ensures !IsUrl("ftp://example.com")
  {
    var u := "ftp://example.com";
    StripSurrounded([], u, []);
    assert [] + u + [] == u;
  }

  /** Surrounding whitespace and upper case do not matter. */
  lemma UpperCaseUrl()
    ensures IsUrl(" " + "HTTPS://a" + "\n")
  {
    var u := "HTTPS://a";
    assert u[0] == 'H' && u[8] == 'a';
    StripSurrounded(" ", u, "\n");
    assert u[1] == 'T' && u[2] == 'T' && u[3] == 'P' && u[4] == 'S' && u[5] == ':' && u[6] == '/' && u[7] == '/';
    assert MatchesScheme(u);
  }
}
