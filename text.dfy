/** The few Python string operations the gateway's topic surgery uses. */
module Text {

  /** Python's `s.split(sep)` for a one-character separator: the pieces between separators, empty pieces kept. */
  function Split(s: string, sep: char): (parts: seq<string>)
    ensures |parts| >= 1
    ensures forall i :: 0 <= i < |parts| ==> sep !in parts[i]
  {
    if s == [] then [""]
    else if s[0] == sep then [""] + Split(s[1..], sep)
    else
      var rest := Split(s[1..], sep);
      [[s[0]] + rest[0]] + rest[1..]
  }

  /** Python's `sep.join(parts)` for a one-character separator. */
  function Join(parts: seq<string>, sep: char): string
    requires |parts| >= 1
  {
    if |parts| == 1 then parts[0] else parts[0] + [sep] + Join(parts[1..], sep)
  }

  /** Python's `s.replace(from, to)` for one-character strings: every `from` becomes `to`. */
  function ReplaceChar(s: string, from: char, to: char): (r: string)
    ensures |r| == |s|
    ensures forall i :: 0 <= i < |s| ==> r[i] == (if s[i] == from then to else s[i])
  {
    if s == [] then [] else [if s[0] == from then to else s[0]] + ReplaceChar(s[1..], from, to)
  }

  /** Python's `s[1:]`, which is empty rather than an error on the empty string. */
  function DropFirst(s: string): string
  {
    if |s| == 0 then "" else s[1..]
  }

  /** Joining the pieces of a split gives the original string back. */
  lemma {:induction false} JoinSplit(s: string, sep: char)
    ensures Join(Split(s, sep), sep) == s
  {
    if s != [] {
      JoinSplit(s[1..], sep);
      var rest := Split(s[1..], sep);
      if s[0] != sep {
        if |rest| == 1 {
          assert Split(s, sep) == [[s[0]] + rest[0]];
        } else {
          var parts := Split(s, sep);
          assert parts[1..] == rest[1..];
          assert s == [s[0]] + s[1..];
        }
      } else {
        assert Split(s, sep)[1..] == rest;
      }
    }
  }

  /** Splitting a join of separator-free pieces gives the pieces back. */
  lemma {:induction false} SplitJoin(parts: seq<string>, sep: char)
    requires |parts| >= 1
    requires forall i :: 0 <= i < |parts| ==> sep !in parts[i]
    ensures Split(Join(parts, sep), sep) == parts
  {
    if |parts| == 1 {
      SplitNoSeparator(parts[0], sep);
    } else {
      SplitJoin(parts[1..], sep);
      SplitPrefix(parts[0], Join(parts[1..], sep), sep);
      assert parts == [parts[0]] + parts[1..];
    }
  }

  /** A string without the separator splits into itself alone. */
  lemma {:induction false} SplitNoSeparator(s: string, sep: char)
    requires sep !in s
    ensures Split(s, sep) == [s]
  {
    if s != [] {
      assert s[0] in s;
      SplitNoSeparator(s[1..], sep);
      assert [s[0]] + s[1..] == s;
    }
  }

  /** A separator-free head followed by the separator splits off as the first piece. */
  lemma {:induction false} SplitPrefix(head: string, tail: string, sep: char)
    requires sep !in head
    ensures Split(head + [sep] + tail, sep) == [head] + Split(tail, sep)
  {
    if head != [] {
      assert (head + [sep] + tail)[1..] == head[1..] + [sep] + tail;
      SplitPrefix(head[1..], tail, sep);
      assert [head[0]] + head[1..] == head;
    } else {
      assert head + [sep] + tail == [sep] + tail;
    }
  }

  /** Appending text without the separator only extends the last piece: the number of pieces stays. */
  lemma {:induction false} SplitAppendCount(s: string, t: string, sep: char)
    requires sep !in t
    ensures |Split(s + t, sep)| == |Split(s, sep)|
  {
    if s == [] {
      assert s + t == t;
      SplitNoSeparator(t, sep);
    } else {
      assert (s + t)[0] == s[0] && (s + t)[1..] == s[1..] + t;
      SplitAppendCount(s[1..], t, sep);
    }
  }

  /** A join is at least as long as any of its pieces. */
  lemma {:induction false} JoinLength(parts: seq<string>, sep: char, k: nat)
    requires k < |parts|
    ensures |Join(parts, sep)| >= |parts[k]| + k
  {
    if k > 0 {
      JoinLength(parts[1..], sep, k - 1);
    }
  }

  /** A join ends with the separator and the last piece. */
  lemma {:induction false} JoinLast(parts: seq<string>, sep: char)
    requires |parts| >= 2
    ensures Join(parts, sep) == Join(parts[..|parts| - 1], sep) + [sep] + parts[|parts| - 1]
  {
    if |parts| > 2 {
      JoinLast(parts[1..], sep);
      assert parts[..|parts| - 1][1..] == parts[1..][..|parts| - 2];
    }
  }

  /** Appending text to a join appends it to the last piece. */
  lemma {:induction false} JoinAppend(parts: seq<string>, t: string, sep: char)
    requires |parts| >= 1
    ensures Join(parts, sep) + t == Join(parts[|parts| - 1 := parts[|parts| - 1] + t], sep)
  {
    if |parts| > 1 {
      JoinAppend(parts[1..], t, sep);
      assert parts[|parts| - 1 := parts[|parts| - 1] + t][1..] == parts[1..][|parts| - 2 := parts[|parts| - 1] + t];
    }
  }

  /** Each piece of `parts` with `from` replaced by `to`. */
  function ReplaceEach(parts: seq<string>, from: char, to: char): (r: seq<string>)
    ensures |r| == |parts|
    ensures forall i :: 0 <= i < |parts| ==> r[i] == ReplaceChar(parts[i], from, to)
  {
    if parts == [] then [] else [ReplaceChar(parts[0], from, to)] + ReplaceEach(parts[1..], from, to)
  }

  /** Replacing a character that does not occur changes nothing. */
  lemma ReplaceAbsent(s: string, from: char, to: char)
    requires from !in s
    ensures ReplaceChar(s, from, to) == s
  {
  }

  /** Replacing in every piece changes only the pieces that hold `from`; here, at most piece `k`. */
  lemma ReplaceEachOnly(parts: seq<string>, k: nat, from: char, to: char)
    requires k < |parts|
    requires forall i :: 0 <= i < |parts| && i != k ==> from !in parts[i]
    ensures ReplaceEach(parts, from, to) == parts[k := ReplaceChar(parts[k], from, to)]
  {
    forall i | 0 <= i < |parts| && i != k
      ensures ReplaceEach(parts, from, to)[i] == parts[i]
    {
      ReplaceAbsent(parts[i], from, to);
    }
  }

  /** Replacing characters distributes over concatenation. */
  lemma ReplaceConcat(x: string, y: string, from: char, to: char)
    ensures ReplaceChar(x + y, from, to) == ReplaceChar(x, from, to) + ReplaceChar(y, from, to)
  {
    var l := ReplaceChar(x + y, from, to);
    var r := ReplaceChar(x, from, to) + ReplaceChar(y, from, to);
    assert forall i :: 0 <= i < |l| ==> l[i] == r[i];
  }

  /** Replacing a character other than the separator by another one commutes with joining. */
  lemma {:induction false} ReplaceJoin(parts: seq<string>, sep: char, from: char, to: char)
    requires |parts| >= 1 && from != sep && to != sep
    ensures ReplaceChar(Join(parts, sep), from, to) == Join(ReplaceEach(parts, from, to), sep)
  {
    if |parts| > 1 {
      ReplaceJoin(parts[1..], sep, from, to);
      ReplaceConcat(parts[0] + [sep], Join(parts[1..], sep), from, to);
      ReplaceConcat(parts[0], [sep], from, to);
      assert ReplaceEach(parts, from, to)[1..] == ReplaceEach(parts[1..], from, to);
    }
  }

  /** Splitting a joined topic after a replacement that spares the separator gives the replaced pieces. */
  lemma SplitReplacedJoin(parts: seq<string>, sep: char, from: char, to: char)
    requires |parts| >= 1 && from != sep && to != sep
    requires forall i :: 0 <= i < |parts| ==> sep !in parts[i]
    ensures Split(ReplaceChar(Join(parts, sep), from, to), sep) == ReplaceEach(parts, from, to)
  {
    ReplaceJoin(parts, sep, from, to);
    SplitJoin(ReplaceEach(parts, from, to), sep);
  }
}
