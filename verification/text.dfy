/** Text helpers shared by the renderers: JavaScript's `Array.prototype.join`,
    the head of a decorator up to its opening parenthesis, and substring search. */
module Text {

  /** `lines.join(sep)`: the empty array joins to "", one line to itself. */
  function Join(lines: seq<string>, sep: string): string
  {
    if |lines| == 0 then ""
    else if |lines| == 1 then lines[0]
    else lines[0] + sep + Join(lines[1..], sep)
  }

  /** Every line followed by its own terminator `sep`. */
  function Terminated(lines: seq<string>, sep: string): (r: string)
    ensures |r| == |Join(lines, sep)| + (if |lines| == 0 then 0 else |sep|)
  {
    if |lines| == 0 then "" else lines[0] + sep + Terminated(lines[1..], sep)
  }

  /** Joining two non-empty blocks puts exactly one separator between them. */
  lemma {:induction false} JoinAppend(a: seq<string>, b: seq<string>, sep: string)
    requires |a| > 0 && |b| > 0
    ensures Join(a + b, sep) == Join(a, sep) + sep + Join(b, sep)
  {
    if |a| == 1 {
      assert a + b == [a[0]] + b;
      assert (a + b)[1..] == b;
    } else {
      assert (a + b)[1..] == a[1..] + b;
      JoinAppend(a[1..], b, sep);
    }
  }

  /** A joined block followed by one more separator is the block with every
      line terminated. */
  lemma {:induction false} JoinThenSeparator(a: seq<string>, sep: string)
    requires |a| > 0
    ensures Join(a, sep) + sep == Terminated(a, sep)
  {
    if |a| > 1 {
      JoinThenSeparator(a[1..], sep);
    }
  }

  /** A block, an empty line and a second block, joined: each line of the
      first block is terminated, then comes one more separator. */
  lemma JoinBlankSeparated(a: seq<string>, b: seq<string>, sep: string)
    requires |b| > 0
    ensures Join(a + [""] + b, sep) == Terminated(a, sep) + sep + Join(b, sep)
  {
    assert a + [""] + b == a + ([""] + b);
    JoinAppend([""], b, sep);
    if |a| > 0 {
      JoinAppend(a, [""] + b, sep);
      JoinThenSeparator(a, sep);
    } else {
      assert a + ([""] + b) == [""] + b;
    }
  }

  /** `s` occurs somewhere inside `text`. */
  predicate Contains(text: string, s: string)
  {
    exists i, j :: 0 <= i <= j <= |text| && text[i..j] == s
  }

  lemma ContainsMiddle(a: string, s: string, b: string)
    ensures Contains(a + s + b, s)
  {
    var t := a + s + b;
    assert t[|a|..|a| + |s|] == s;
  }

  /** The part of `s` before its first `(`, or all of `s` when it has none. */
  function HeadOf(s: string): (r: string)
    ensures |r| <= |s| && r == s[..|r|]
    ensures '(' !in r
  {
    if |s| == 0 || s[0] == '(' then "" else [s[0]] + HeadOf(s[1..])
  }

  lemma {:induction false} HeadOfCall(name: string, rest: string)
    requires '(' !in name
    ensures HeadOf(name + "(" + rest) == name
  {
    if |name| > 0 {
      assert (name + "(" + rest)[1..] == name[1..] + "(" + rest;
      HeadOfCall(name[1..], rest);
      assert [name[0]] + name[1..] == name;
    } else {
      assert (name + "(" + rest)[0] == '(';
    }
  }
}
