/**
 * Line-oriented string operations the to-do store is built from:
 * `str::split("\n")`, `[&str]::join("\n")`, the filter that drops empty
 * lines, and `Vec::remove` viewed on sequences.
 */
module Text {
  const NL: char := '\n'

  /** A task line: a string holding no record separator. */
  predicate NoNewline(s: string) {
    NL !in s
  }

  predicate AllNoNewline(ls: seq<string>) {
    forall i :: 0 <= i < |ls| ==> NoNewline(ls[i])
  }

  predicate AllNonEmpty(ls: seq<string>) {
    forall i :: 0 <= i < |ls| ==> ls[i] != ""
  }

  function CountNewlines(s: string): nat {
    if |s| == 0 then 0 else (if s[0] == NL then 1 else 0) + CountNewlines(s[1..])
  }

  /**
   * `s.split("\n")`: the pieces between separators, empty ones included.
   * There is always one piece more than there are separators, so the
   * result is never empty, and no piece holds a separator.
   */
  function Split(s: string): (r: seq<string>)
    ensures |r| == CountNewlines(s) + 1
    ensures AllNoNewline(r)
  {
    if |s| == 0 then [""]
    else if s[0] == NL then [""] + Split(s[1..])
    else
      var rest := Split(s[1..]);
      assert NoNewline(rest[0]);
      [[s[0]] + rest[0]] + rest[1..]
  }

  /** `ls.join("\n")`: the pieces with one separator between neighbours. */
  function Join(ls: seq<string>): (r: string)
    ensures |ls| > 0 ==> |ls[0]| <= |r| && r[..|ls[0]|] == ls[0]
    ensures AllNoNewline(ls) && |ls| > 0 ==> CountNewlines(r) == |ls| - 1
  {
    if |ls| == 0 then ""
    else if |ls| == 1 then
      NoNewlineCount(ls[0]);
      ls[0]
    else
      var rest := Join(ls[1..]);
      var r := ls[0] + [NL] + rest;
      assert r[..|ls[0]|] == ls[0];
      CountNewlinesConcat(ls[0] + [NL], rest);
      CountNewlinesConcat(ls[0], [NL]);
      NoNewlineCount(ls[0]);
      r
  }

  lemma {:induction false} CountNewlinesConcat(a: string, b: string)
    ensures CountNewlines(a + b) == CountNewlines(a) + CountNewlines(b)
  {
    if |a| > 0 {
      assert (a + b)[1..] == a[1..] + b;
      CountNewlinesConcat(a[1..], b);
    } else {
      assert a + b == b;
    }
  }

  lemma {:induction false} NoNewlineCount(a: string)
    ensures NoNewline(a) ==> CountNewlines(a) == 0
  {
    if |a| > 0 {
      assert forall c :: c in a[1..] ==> c in a;
      NoNewlineCount(a[1..]);
    }
  }

  /** `.filter(|line| !line.is_empty())`, collected: empty pieces dropped, order kept. */
  function NonEmpty(ls: seq<string>): (r: seq<string>)
    ensures |r| <= |ls|
    ensures AllNonEmpty(r)
    ensures forall i :: 0 <= i < |r| ==> r[i] in ls
    ensures forall x :: x in ls && x != "" ==> x in r
  {
    if |ls| == 0 then []
    else
      var init := NonEmpty(ls[..|ls| - 1]);
      assert forall x :: x in ls ==> x in ls[..|ls| - 1] || x == ls[|ls| - 1];
      if ls[|ls| - 1] == "" then init else init + [ls[|ls| - 1]]
  }

  /** `Vec::remove(i)` seen on values: the element at `i` taken out, the others kept in order. */
  function RemoveAt<T>(ls: seq<T>, i: nat): (r: seq<T>)
    requires i < |ls|
    ensures |r| == |ls| - 1
    ensures forall j :: 0 <= j < i ==> r[j] == ls[j]
    ensures forall j :: i <= j < |r| ==> r[j] == ls[j + 1]
    ensures multiset(r) + multiset{ls[i]} == multiset(ls)
  {
    assert ls == ls[..i] + [ls[i]] + ls[i + 1..];
    ls[..i] + ls[i + 1..]
  }

  // ---- split / join round trips ----

  lemma {:induction false} SplitLine(a: string)
    requires NoNewline(a)
    ensures Split(a) == [a]
  {
    if |a| > 0 {
      assert NoNewline(a[1..]) by { assert forall c :: c in a[1..] ==> c in a; }
      SplitLine(a[1..]);
      assert [a[0]] + a[1..] == a;
    }
  }

  /** Splitting at a first separator: the line before it, then the pieces after it. */
  lemma {:induction false} SplitAfterLine(a: string, t: string)
    requires NoNewline(a)
    ensures Split(a + [NL] + t) == [a] + Split(t)
  {
    if |a| == 0 {
      assert a + [NL] + t == [NL] + t;
      assert ([NL] + t)[1..] == t;
    } else {
      var s := a + [NL] + t;
      assert s[0] == a[0] && s[0] != NL;
      assert s[1..] == a[1..] + [NL] + t;
      assert NoNewline(a[1..]) by { assert forall c :: c in a[1..] ==> c in a; }
      SplitAfterLine(a[1..], t);
      assert [a[0]] + a[1..] == a;
    }
  }

  /** Joining the split pieces gives back the original string. */
  lemma {:induction false} JoinSplit(s: string)
    ensures Join(Split(s)) == s
  {
    if |s| > 0 {
      JoinSplit(s[1..]);
      var rest := Split(s[1..]);
      if s[0] == NL {
        assert Split(s) == [""] + rest;
        assert Join(Split(s)) == "" + [NL] + Join(rest);
        assert [s[0]] + s[1..] == s;
      } else {
        assert Split(s) == [[s[0]] + rest[0]] + rest[1..];
        if |rest| == 1 {
          assert Join(rest) == rest[0];
        } else {
          assert Join(rest) == rest[0] + [NL] + Join(rest[1..]);
          assert ([[s[0]] + rest[0]] + rest[1..])[1..] == rest[1..];
        }
        assert [s[0]] + s[1..] == s;
      }
    }
  }

  /** Splitting the join of at least one newline-free line gives back the lines. */
  lemma {:induction false} SplitJoin(ls: seq<string>)
    requires |ls| >= 1
    requires AllNoNewline(ls)
    ensures Split(Join(ls)) == ls
  {
    if |ls| == 1 {
      SplitLine(ls[0]);
    } else {
      SplitJoin(ls[1..]);
      SplitAfterLine(ls[0], Join(ls[1..]));
      assert [ls[0]] + ls[1..] == ls;
    }
  }

  /** A separator splits the string into the pieces before it and the pieces after it. */
  lemma SplitSeparator(a: string, b: string)
    ensures Split(a + [NL] + b) == Split(a) + Split(b)
  {
    var la, lb := Split(a), Split(b);
    JoinSplit(a);
    JoinSplit(b);
    JoinConcat(la, lb);
    SplitJoin(la + lb);
  }

  lemma {:induction false} JoinConcat(la: seq<string>, lb: seq<string>)
    requires |la| >= 1 && |lb| >= 1
    ensures Join(la + lb) == Join(la) + [NL] + Join(lb)
  {
    if |la| > 1 {
      assert (la + lb)[1..] == la[1..] + lb;
      JoinConcat(la[1..], lb);
    } else {
      assert (la + lb)[1..] == lb;
    }
  }

  lemma {:induction false} JoinSnoc(ls: seq<string>, t: string)
    requires |ls| >= 1
    ensures Join(ls + [t]) == Join(ls) + [NL] + t
  {
    if |ls| > 1 {
      assert (ls + [t])[1..] == ls[1..] + [t];
      JoinSnoc(ls[1..], t);
    }
  }

  /** Appending a separator and a newline-free line adds exactly one piece at the end. */
  lemma SplitAppend(c: string, t: string)
    requires NoNewline(t)
    ensures Split(c + [NL] + t) == Split(c) + [t]
  {
    var ls := Split(c);
    JoinSplit(c);
    JoinSnoc(ls, t);
    SplitJoin(ls + [t]);
  }

  // ---- the filter ----

  lemma {:induction false} NonEmptyConcat(a: seq<string>, b: seq<string>)
    ensures NonEmpty(a + b) == NonEmpty(a) + NonEmpty(b)
  {
    if |b| > 0 {
      assert (a + b)[..|a + b| - 1] == a + b[..|b| - 1];
      NonEmptyConcat(a, b[..|b| - 1]);
    } else {
      assert a + b == a;
    }
  }

  /** The filter leaves a sequence of non-empty lines as it is. */
  lemma {:induction false} NonEmptyKeeps(ls: seq<string>)
    requires AllNonEmpty(ls)
    ensures NonEmpty(ls) == ls
  {
    if |ls| > 0 {
      NonEmptyKeeps(ls[..|ls| - 1]);
    }
  }

  lemma NonEmptyNoNewline(ls: seq<string>)
    requires AllNoNewline(ls)
    ensures AllNoNewline(NonEmpty(ls))
  {
  }

  /**
   * Non-empty, newline-free lines survive a join followed by a split and
   * the filter, also when there are none: the join is then "", whose one
   * piece is empty and filtered out.
   */
  lemma JoinTasks(ls: seq<string>)
    requires AllNoNewline(ls) && AllNonEmpty(ls)
    ensures NonEmpty(Split(Join(ls))) == ls
  {
    if |ls| == 0 {
      assert Split("") == [""];
      assert NonEmpty([""]) == NonEmpty([]) == [];
    } else {
      SplitJoin(ls);
      NonEmptyKeeps(ls);
    }
  }

  /** Deleting one task from the filtered lines and writing them back loses or adds nothing else. */
  lemma RemoveWriteBack(lines: seq<string>, i: nat)
    requires AllNoNewline(lines) && AllNonEmpty(lines) && i < |lines|
    ensures NonEmpty(Split(Join(RemoveAt(lines, i)))) == RemoveAt(lines, i)
  {
    var rest := RemoveAt(lines, i);
    assert forall j :: 0 <= j < |rest| ==> rest[j] == lines[if j < i then j else j + 1];
    JoinTasks(rest);
  }
}
