/** The line structure of a multi-line text: splitting at '\n' and joining with '\n'. */
module Lines {

  predicate NoBreak(s: string) {
    '\n' !in s
  }

  /** No line of `lines` contains a break. */
  predicate AllNoBreak(lines: seq<string>) {
    forall i :: 0 <= i < |lines| ==> NoBreak(lines[i])
  }

  /** The lines of `s`: the pieces between line breaks (a trailing break yields a last empty line). */
  function SplitLines(s: string): (lines: seq<string>)
    ensures |lines| >= 1
    ensures AllNoBreak(lines)
    decreases |s|
  {
    if |s| == 0 then [""]
    else
      var rest := SplitLines(s[1..]);
      if s[0] == '\n' then [""] + rest
      else [[s[0]] + rest[0]] + rest[1..]
  }

  /** The text made of `lines`, with one '\n' between each line and the next. */
  function JoinLines(lines: seq<string>): string
  {
    if |lines| == 0 then ""
    else if |lines| == 1 then lines[0]
    else lines[0] + "\n" + JoinLines(lines[1..])
  }

  /** Prefixing a text with a break-free piece only lengthens its first line. */
  lemma {:induction false} SplitPrefix(a: string, t: string)
    requires NoBreak(a)
    ensures SplitLines(a + t) == [a + SplitLines(t)[0]] + SplitLines(t)[1..]
    decreases |a|
  {
    if |a| == 0 {
      var lines := SplitLines(t);
      assert a + t == t && a + lines[0] == lines[0];
      assert lines == [lines[0]] + lines[1..];
    } else {
      assert (a + t)[1..] == a[1..] + t;
      SplitPrefix(a[1..], t);
      assert [a[0]] + (a[1..] + SplitLines(t)[0]) == a + SplitLines(t)[0];
    }
  }

  /** Joining with breaks adds exactly one line per break. */
  lemma SplitBreak(a: string, t: string)
    requires NoBreak(a)
    ensures SplitLines(a + "\n" + t) == [a] + SplitLines(t)
  {
    SplitPrefix(a, "\n" + t);
    assert ("\n" + t)[0] == '\n' && ("\n" + t)[1..] == t;
    assert SplitLines("\n" + t) == [""] + SplitLines(t);
    assert a + "" == a;
    assert a + "\n" + t == a + ("\n" + t);
  }

  /** Splitting undoes joining when no line holds a break. */
  lemma {:induction false} SplitOfJoin(lines: seq<string>)
    requires |lines| >= 1
    requires AllNoBreak(lines)
    ensures SplitLines(JoinLines(lines)) == lines
  {
    if |lines| == 1 {
      SplitPrefix(lines[0], "");
      assert lines[0] + "" == lines[0];
    } else {
      SplitOfJoin(lines[1..]);
      SplitBreak(lines[0], JoinLines(lines[1..]));
      assert lines == [lines[0]] + lines[1..];
    }
  }

  /** Joining undoes splitting: the line view of a text loses nothing. */
  lemma {:induction false} JoinOfSplit(s: string)
    ensures JoinLines(SplitLines(s)) == s
    decreases |s|
  {
    if |s| > 0 {
      JoinOfSplit(s[1..]);
      var rest := SplitLines(s[1..]);
      if s[0] == '\n' {
        assert ([""] + rest)[1..] == rest;
        assert s == "\n" + s[1..];
      } else {
        var lines := [[s[0]] + rest[0]] + rest[1..];
        assert lines[1..] == rest[1..];
        if |rest| > 1 {
          assert JoinLines(rest) == rest[0] + "\n" + JoinLines(rest[1..]);
        }
        assert s == [s[0]] + s[1..];
      }
    }
  }

  /** Joining two non-empty groups of lines puts one break between them. */
  lemma {:induction false} JoinAppend(xs: seq<string>, ys: seq<string>)
    requires |xs| >= 1 && |ys| >= 1
    ensures JoinLines(xs + ys) == JoinLines(xs) + "\n" + JoinLines(ys)
  {
    if |xs| == 1 {
      assert (xs + ys)[1..] == ys;
    } else {
      assert (xs + ys)[1..] == xs[1..] + ys;
      JoinAppend(xs[1..], ys);
    }
  }
}
