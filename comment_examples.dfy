/** The whitespace normalisation of `digestComment` on a concrete comment,
    "  a   b\n\tc ", one run of whitespace at a time from the end. */
module CommentExamples {

  import opened Int32Bytes
  import opened CommentDigest

  lemma CollapseTrailingBlank(s: string)
    requires s == "c "
    ensures CollapseSpaces(s) == "c "
  {
    assert s[1..] == " ";
    assert s[1..][1..] == "";
  }

  /** A line feed followed by a tab is one run. */
  lemma CollapseLineFeedTab(s: string)
    requires s == "\n\tc "
    ensures CollapseSpaces(s) == " c "
  {
    assert s[1..][1..] == "c ";
    assert DropSpaces(s[1..]) == s[1..][1..];
    CollapseTrailingBlank(s[1..][1..]);
  }

  lemma CollapseFromB(s: string)
    requires s == "b\n\tc "
    ensures CollapseSpaces(s) == "b c "
  {
    assert s[1..] == "\n\tc ";
    CollapseLineFeedTab(s[1..]);
  }

  /** Three blanks are one run. */
  lemma CollapseThreeBlanks(s: string)
    requires s == "   b\n\tc "
    ensures CollapseSpaces(s) == " b c "
  {
    var b := s[1..][1..][1..];
    assert b == "b\n\tc ";
    assert DropSpaces(s[1..][1..]) == b;
    assert DropSpaces(s[1..]) == b;
    CollapseFromB(b);
  }

  lemma CollapseFromA(s: string)
    requires s == "a   b\n\tc "
    ensures CollapseSpaces(s) == "a b c "
  {
    assert s[1..] == "   b\n\tc ";
    CollapseThreeBlanks(s[1..]);
  }

  /** The two leading blanks are one run. */
  lemma CollapseExample(s: string)
    requires s == "  a   b\n\tc "
    ensures CollapseSpaces(s) == " a b c "
  {
    var a := s[1..][1..];
    assert a == "a   b\n\tc ";
    assert DropSpaces(s[1..]) == a;
    CollapseFromA(a);
  }

  /** Leading, inner and trailing runs of blanks, tabs and line feeds each
      become one space, and the ends are trimmed. */
  lemma NormalizeExample(s: string)
    requires s == "  a   b\n\tc "
    ensures Normalize(s) == "a b c"
  {
    CollapseExample(s);
    var c := " a b c ";
    var d := "a b c ";
    assert TrimStart(c) == d by {
      assert c[1..] == d;
      assert c[0] <= ' ';
      assert TrimStart(c) == TrimStart(c[1..]);
    }
    assert TrimEnd(d) == "a b c" by {
      assert d[..5] == "a b c";
      assert d[5] <= ' ';
      assert TrimEnd(d) == TrimEnd(d[..5]);
    }
  }

  /** Two comments that differ only in whitespace layout have the same digest. */
  lemma WhitespaceInsensitive(s: string, t: string, utf8: string -> seq<Byte>,
                              md5: seq<Byte> -> seq<Byte>, hexString: seq<Byte> -> string)
    requires s == "  a   b\n\tc " && t == "a b c"
    ensures DigestComment(s, utf8, md5, hexString) == DigestComment(t, utf8, md5, hexString)
  {
    NormalizeExample(s);
    DigestCommentOfNormalized(s, utf8, md5, hexString);
  }
}
