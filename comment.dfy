/** `MotorDigest.digestComment`: a comment is normalised with
    `replaceAll("\\s+", " ").trim()` before its UTF-8 bytes are hashed, so
    that comments whose whitespace runs differ only in length, in which
    whitespace characters they contain, or at the ends get the same digest. */
module CommentDigest {

  import opened Int32Bytes

  /** The regular-expression class `\s`: space, and tab, line feed,
      vertical tab, form feed and carriage return (U+0009 to U+000D). */
  predicate IsRegexSpace(c: char)
  {
    c == ' ' || '\t' <= c <= '\r'
  }

  /** Every `\s` character is a plain space and no two of them are adjacent. */
  ghost predicate SingleSpaced(s: string)
  {
    && (forall i :: 0 <= i < |s| && IsRegexSpace(s[i]) ==> s[i] == ' ')
    && (forall i, j :: 0 <= i && j == i + 1 && j < |s| ==> !(IsRegexSpace(s[i]) && IsRegexSpace(s[j])))
  }

  /** Neither end is a character `String.trim` removes (code point at most U+0020). */
  ghost predicate Trimmed(s: string)
  {
    s == [] || (s[0] > ' ' && s[|s| - 1] > ' ')
  }

  /** Drops the run of `\s` characters at the front. */
  function DropSpaces(s: string): (r: string)
    ensures |r| <= |s|
    ensures forall k :: 0 <= k < |s| - |r| ==> IsRegexSpace(s[k])
    ensures r == [] || !IsRegexSpace(r[0])
  {
    if s != [] && IsRegexSpace(s[0]) then DropSpaces(s[1..]) else s
  }

  /** What `DropSpaces` keeps is the end of its input. */
  lemma {:induction false} DropSpacesIsSuffix(s: string)
    ensures DropSpaces(s) == s[|s| - |DropSpaces(s)|..]
  {
    if s != [] && IsRegexSpace(s[0]) {
      DropSpacesIsSuffix(s[1..]);
    }
  }

  /** A run of `\s` followed by a string that does not start with one is
      dropped whole. */
  lemma {:induction false} DropSpacesOfRun(w: string, b: string)
    requires forall k :: 0 <= k < |w| ==> IsRegexSpace(w[k])
    requires b == [] || !IsRegexSpace(b[0])
    ensures DropSpaces(w + b) == b
  {
    if w == [] {
      assert w + b == b;
    } else {
      assert (w + b)[1..] == w[1..] + b;
      DropSpacesOfRun(w[1..], b);
    }
  }

  /** When `s` holds a character other than `\s`, what follows `s` is not
      touched by dropping its leading run. */
  lemma {:induction false} DropSpacesAppend(s: string, t: string)
    requires DropSpaces(s) != []
    ensures DropSpaces(s + t) == DropSpaces(s) + t
  {
    if s != [] && IsRegexSpace(s[0]) {
      assert (s + t)[1..] == s[1..] + t;
      DropSpacesAppend(s[1..], t);
    }
  }

  /** `replaceAll("\\s+", " ")`: every maximal run of `\s` characters
      becomes one space. */
  function CollapseSpaces(s: string): (r: string)
    ensures |r| <= |s|
    ensures s != [] && !IsRegexSpace(s[0]) ==> r != [] && r[0] == s[0]
    decreases |s|
  {
    if s == [] then []
    else if IsRegexSpace(s[0]) then [' '] + CollapseSpaces(DropSpaces(s[1..]))
    else [s[0]] + CollapseSpaces(s[1..])
  }

  /** A run of `\s` at the front becomes one space. */
  lemma CollapseLeadingRun(w: string, b: string)
    requires w != [] && forall k :: 0 <= k < |w| ==> IsRegexSpace(w[k])
    requires b == [] || !IsRegexSpace(b[0])
    ensures CollapseSpaces(w + b) == " " + CollapseSpaces(b)
  {
    assert (w + b)[1..] == w[1..] + b;
    DropSpacesOfRun(w[1..], b);
  }

  /** Concatenation is associative. */
  lemma Assoc(x: string, y: string, z: string)
    ensures x + y + z == x + (y + z)
  {
  }

  /** Dropping the first character of a concatenation whose first part is
      not empty. */
  lemma TailOfAppend(x: string, y: string)
    requires x != []
    ensures (x + y)[0] == x[0] && (x + y)[1..] == x[1..] + y
  {
  }

  /** The step of `CollapseRun` when `a` starts with a character other
      than `\s`. */
  lemma CollapseKeepHead(a: string, rest: string, tail: string)
    requires a != [] && !IsRegexSpace(a[0])
    requires CollapseSpaces(a[1..] + rest) == CollapseSpaces(a[1..]) + tail
    ensures CollapseSpaces(a + rest) == CollapseSpaces(a) + tail
  {
    TailOfAppend(a, rest);
    Assoc([a[0]], CollapseSpaces(a[1..]), tail);
  }

  /** What is left of `a` after its leading run of `\s`, when `a` starts
      with `\s` and ends with another character. */
  lemma AfterLeadingRun(a: string)
    requires a != [] && IsRegexSpace(a[0]) && !IsRegexSpace(a[|a| - 1])
    ensures var r := DropSpaces(a[1..]);
      |r| < |a| && r != [] && !IsRegexSpace(r[|r| - 1])
  {
    var t := a[1..];
    var r := DropSpaces(t);
    DropSpacesIsSuffix(t);
    assert r != [] by {
      assert !IsRegexSpace(t[|t| - 1]);
    }
    assert r[|r| - 1] == t[|t| - 1];
  }

  /** The step of `CollapseRun` when `a` starts with a run of `\s` that
      ends inside `a`: that run becomes one space. */
  lemma CollapseSpaceHead(a: string, rest: string, tail: string)
    requires a != [] && IsRegexSpace(a[0]) && DropSpaces(a[1..]) != []
    requires CollapseSpaces(DropSpaces(a[1..]) + rest) == CollapseSpaces(DropSpaces(a[1..])) + tail
    ensures CollapseSpaces(a + rest) == CollapseSpaces(a) + tail
  {
    var t := a[1..];
    TailOfAppend(a, rest);
    DropSpacesAppend(t, rest);
    Assoc([' '], CollapseSpaces(DropSpaces(t)), tail);
  }

  /** `replaceAll("\\s+", " ")` replaces each maximal run of `\s` characters
      by exactly one space and keeps what is on either side of it. */
  lemma CollapseRun(a: string, w: string, b: string)
    requires a == [] || !IsRegexSpace(a[|a| - 1])
    requires w != [] && forall k :: 0 <= k < |w| ==> IsRegexSpace(w[k])
    requires b == [] || !IsRegexSpace(b[0])
    ensures CollapseSpaces(a + w + b) == CollapseSpaces(a) + " " + CollapseSpaces(b)
  {
    Assoc(a, w, b);
    Assoc(CollapseSpaces(a), " ", CollapseSpaces(b));
    CollapseLeadingRun(w, b);
    assert (w + b)[0] == w[0];
    CollapseAround(a, w + b, " " + CollapseSpaces(b));
  }

  /** `CollapseRun` with the run and what follows it taken together: `rest`
      starts with a run of `\s` and collapses to `tail`. */
  lemma {:induction false} CollapseAround(a: string, rest: string, tail: string)
    requires a == [] || !IsRegexSpace(a[|a| - 1])
    requires rest != [] && IsRegexSpace(rest[0]) && CollapseSpaces(rest) == tail
    ensures CollapseSpaces(a + rest) == CollapseSpaces(a) + tail
    decreases |a|
  {
    if a == [] {
      assert a + rest == rest;
    } else if !IsRegexSpace(a[0]) {
      CollapseAround(a[1..], rest, tail);
      CollapseKeepHead(a, rest, tail);
    } else {
      AfterLeadingRun(a);
      CollapseAround(DropSpaces(a[1..]), rest, tail);
      CollapseSpaceHead(a, rest, tail);
    }
  }

  /** Collapsing leaves no `\s` other than single spaces, never two adjacent. */
  lemma {:induction false} CollapseIsSingleSpaced(s: string)
    ensures SingleSpaced(CollapseSpaces(s))
    decreases |s|
  {
    if s != [] {
      var rest := if IsRegexSpace(s[0]) then DropSpaces(s[1..]) else s[1..];
      CollapseIsSingleSpaced(rest);
      var c := CollapseSpaces(rest);
      var r := CollapseSpaces(s);
      assert r == [if IsRegexSpace(s[0]) then ' ' else s[0]] + c;
      assert c != [] && IsRegexSpace(s[0]) ==> !IsRegexSpace(c[0]);
      forall i | 0 < i < |r|
        ensures r[i] == c[i - 1]
      {
      }
    }
  }

  /** The characters of `s` other than `\s`, in order. */
  function NonSpaces(s: string): string
  {
    if s == [] then []
    else (if IsRegexSpace(s[0]) then [] else [s[0]]) + NonSpaces(s[1..])
  }

  /** Dropping a run of `\s` drops no other character. */
  lemma {:induction false} DropSpacesKeepsNonSpaces(s: string)
    ensures NonSpaces(DropSpaces(s)) == NonSpaces(s)
  {
    if s != [] && IsRegexSpace(s[0]) {
      DropSpacesKeepsNonSpaces(s[1..]);
    }
  }

  /** Collapsing keeps every character other than `\s`, in order: only
      whitespace changes. */
  lemma {:induction false} CollapseKeepsNonSpaces(s: string)
    ensures NonSpaces(CollapseSpaces(s)) == NonSpaces(s)
    decreases |s|
  {
    if s != [] {
      var r := CollapseSpaces(s);
      if IsRegexSpace(s[0]) {
        var t := DropSpaces(s[1..]);
        CollapseKeepsNonSpaces(t);
        DropSpacesKeepsNonSpaces(s[1..]);
        assert r == [' '] + CollapseSpaces(t);
        assert NonSpaces(r) == NonSpaces(CollapseSpaces(t)) by {
          assert r[1..] == CollapseSpaces(t);
        }
      } else {
        CollapseKeepsNonSpaces(s[1..]);
        assert r[1..] == CollapseSpaces(s[1..]);
      }
    }
  }

  /** The leading characters at most U+0020 removed. */
  function TrimStart(s: string): (r: string)
    ensures |r| <= |s|
    ensures forall k :: 0 <= k < |s| - |r| ==> s[k] <= ' '
    ensures r == [] || r[0] > ' '
  {
    if s != [] && s[0] <= ' ' then TrimStart(s[1..]) else s
  }

  /** The trailing characters at most U+0020 removed. */
  function TrimEnd(s: string): (r: string)
    ensures |r| <= |s|
    ensures forall k :: |r| <= k < |s| ==> s[k] <= ' '
    ensures r == [] || r[|r| - 1] > ' '
  {
    if s != [] && s[|s| - 1] <= ' ' then TrimEnd(s[..|s| - 1]) else s
  }

  /** What `TrimStart` keeps is the end of its input. */
  lemma {:induction false} TrimStartIsSuffix(s: string)
    ensures TrimStart(s) == s[|s| - |TrimStart(s)|..]
  {
    if s != [] && s[0] <= ' ' {
      TrimStartIsSuffix(s[1..]);
    }
  }

  /** What `TrimEnd` keeps is the start of its input. */
  lemma {:induction false} TrimEndIsPrefix(s: string)
    ensures TrimEnd(s) == s[..|TrimEnd(s)|]
  {
    if s != [] && s[|s| - 1] <= ' ' {
      TrimEndIsPrefix(s[..|s| - 1]);
    }
  }

  /** A slice of a single-spaced string is single-spaced. */
  lemma SingleSpacedSlice(s: string, i: nat, j: nat)
    requires SingleSpaced(s) && i <= j <= |s|
    ensures SingleSpaced(s[i..j])
  {
    var t := s[i..j];
    forall k | 0 <= k < |t|
      ensures t[k] == s[i + k]
    {
    }
  }

  /** Neither end of what the two trims keep is at most U+0020. */
  lemma TrimmedEnds(s: string)
    ensures Trimmed(TrimEnd(TrimStart(s)))
  {
    var t := TrimStart(s);
    var r := TrimEnd(t);
    TrimEndIsPrefix(t);
    if r != [] {
      assert r[0] == t[0];
    }
  }

  /** The two trims keep a single-spaced string single-spaced. */
  lemma TrimmedSingleSpaced(s: string)
    ensures SingleSpaced(s) ==> SingleSpaced(TrimEnd(TrimStart(s)))
  {
    if !SingleSpaced(s) {
      return;
    }
    var t := TrimStart(s);
    TrimStartIsSuffix(s);
    TrimEndIsPrefix(t);
    SingleSpacedSlice(s, |s| - |t|, |s|);
    SingleSpacedSlice(t, 0, |TrimEnd(t)|);
  }

  /** `String.trim`: the longest slice of `s` that neither starts nor ends
      with a character at most U+0020. */
  function Trim(s: string): (r: string)
    ensures |r| <= |s|
    ensures Trimmed(r)
    ensures Trimmed(s) ==> r == s
    ensures SingleSpaced(s) ==> SingleSpaced(r)
  {
    TrimmedEnds(s);
    TrimmedSingleSpaced(s);
    TrimEnd(TrimStart(s))
  }

  /** Collapsing changes nothing in a string that is already single-spaced. */
  lemma {:induction false} CollapseSingleSpaced(s: string)
    ensures SingleSpaced(s) ==> CollapseSpaces(s) == s
  {
    if s != [] && SingleSpaced(s) {
      SingleSpacedSlice(s, 1, |s|);
      CollapseSingleSpaced(s[1..]);
      if IsRegexSpace(s[0]) {
        assert DropSpaces(s[1..]) == s[1..];
      }
      assert [s[0]] + s[1..] == s;
    }
  }

  /** The normalisation step of `digestComment`: the result has no `\s`
      other than single spaces, no two of them adjacent, and no character at
      most U+0020 at either end; a comment of that shape is left as it is. */
  function Normalize(comment: string): (r: string)
    ensures SingleSpaced(r) && Trimmed(r)
    ensures SingleSpaced(comment) && Trimmed(comment) ==> r == comment
  {
    CollapseIsSingleSpaced(comment);
    CollapseSingleSpaced(comment);
    Trim(CollapseSpaces(comment))
  }

  /** Normalising twice gives the same string as normalising once. */
  lemma NormalizeIdempotent(comment: string)
    ensures Normalize(Normalize(comment)) == Normalize(comment)
  {
  }

  /** `digestComment(comment)`: the hex rendering of the MD5 hash of the
      UTF-8 bytes of the normalised comment, which is also the digest of the
      normalised comment normalised again. */
  function DigestComment(comment: string, utf8: string -> seq<Byte>,
                         md5: seq<Byte> -> seq<Byte>, hexString: seq<Byte> -> string): (r: string)
    ensures r == hexString(md5(utf8(Normalize(Normalize(comment)))))
  {
    NormalizeIdempotent(comment);
    hexString(md5(utf8(Normalize(comment))))
  }

  /** A comment and its normalisation have the same digest. */
  lemma DigestCommentOfNormalized(comment: string, utf8: string -> seq<Byte>,
                                  md5: seq<Byte> -> seq<Byte>, hexString: seq<Byte> -> string)
    ensures DigestComment(Normalize(comment), utf8, md5, hexString)
         == DigestComment(comment, utf8, md5, hexString)
  {
    NormalizeIdempotent(comment);
  }
}
