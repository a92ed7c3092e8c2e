/** Text handling the two command interpreters rely on: `String.Split(' ')`,
    with and without `StringSplitOptions.RemoveEmptyEntries`, and `ToLower`.
    `Join` is not called by either interpreter; it is the inverse against
    which `Split` is proved. */
module Tokens {

  /** `s.Split(' ')`: the pieces between consecutive spaces, empty pieces
      included; there is always at least one piece. */
  function Split(s: string): (r: seq<string>)
    ensures |r| >= 1
  {
    if s == [] then [""]
    else if s[0] == ' ' then [""] + Split(s[1..])
    else
      var t := Split(s[1..]);
      [[s[0]] + t[0]] + t[1..]
  }

  /** Joining pieces with single spaces: the reference inverse of `Split`. */
  function Join(parts: seq<string>): string
  {
    if |parts| == 0 then ""
    else if |parts| == 1 then parts[0]
    else parts[0] + " " + Join(parts[1..])
  }

  /** The number of spaces in `s`. */
  function Spaces(s: string): nat
  {
    if s == [] then 0 else (if s[0] == ' ' then 1 else 0) + Spaces(s[1..])
  }

  /** Splitting on every space loses nothing: joining the pieces with single
      spaces gives the line back, no piece holds a space, and there is one
      piece more than there are spaces. */
  lemma {:induction false} SplitJoin(s: string)
    ensures Join(Split(s)) == s
    ensures |Split(s)| == Spaces(s) + 1
    ensures forall i :: 0 <= i < |Split(s)| ==> ' ' !in Split(s)[i]
  {
    if s != [] {
      SplitJoin(s[1..]);
      var t := Split(s[1..]);
      if s[0] == ' ' {
        assert Split(s) == [""] + t;
        assert Join(Split(s)) == "" + " " + Join(t);
        assert s == [' '] + s[1..];
      } else {
        assert Split(s)[1..] == t[1..];
        if |t| == 1 {
          assert s == [s[0]] + t[0];
        } else {
          assert Join(t) == t[0] + " " + Join(t[1..]);
          assert s == [s[0]] + s[1..];
        }
      }
    }
  }

  /** A space separates: the pieces of `a + " " + b` are those of `a`
      followed by those of `b`. */
  lemma {:induction false} SplitAppend(a: string, b: string)
    ensures Split(a + " " + b) == Split(a) + Split(b)
  {
    if a == [] {
      assert a + " " + b == [' '] + b;
      assert ([' '] + b)[1..] == b;
    } else {
      assert (a + " " + b)[1..] == a[1..] + " " + b;
      SplitAppend(a[1..], b);
    }
  }

  /** A line without spaces is its own single piece. */
  lemma {:induction false} SplitWord(w: string)
    requires ' ' !in w
    ensures Split(w) == [w]
  {
    if w != [] {
      SplitWord(w[1..]);
      assert [w[0]] + w[1..] == w;
    }
  }

  /** A leading space makes the first piece empty. */
  lemma LeadingSpace(s: string)
    ensures Split(" " + s)[0] == ""
    ensures |Split(" " + s)| == |Split(s)| + 1
  {
    assert (" " + s)[1..] == s;
  }

  /** A doubled space yields one more (empty) piece than a single space. */
  lemma DoubledSpace(a: string, b: string)
    ensures Split(a + "  " + b) == Split(a) + [""] + Split(b)
    ensures |Split(a + "  " + b)| == |Split(a + " " + b)| + 1
  {
    assert a + "  " + b == a + " " + (" " + b);
    SplitAppend(a, " " + b);
    LeadingSpace(b);
    assert (" " + b)[1..] == b;
    SplitAppend(a, b);
  }

  /** `StringSplitOptions.RemoveEmptyEntries`. */
  function RemoveEmpty(parts: seq<string>): (r: seq<string>)
    ensures |r| <= |parts|
    ensures forall i :: 0 <= i < |r| ==> r[i] != "" && r[i] in parts
    ensures forall p :: p in parts && p != "" ==> p in r
  {
    if parts == [] then []
    else (if parts[0] == "" then [] else [parts[0]]) + RemoveEmpty(parts[1..])
  }

  lemma {:induction false} RemoveEmptyAppend(a: seq<string>, b: seq<string>)
    ensures RemoveEmpty(a + b) == RemoveEmpty(a) + RemoveEmpty(b)
  {
    if a == [] {
      assert a + b == b;
    } else {
      assert (a + b)[1..] == a[1..] + b;
      RemoveEmptyAppend(a[1..], b);
    }
  }

  /** Pieces that are all non-empty are kept as they are, in order. */
  lemma {:induction false} RemoveEmptyKeeps(parts: seq<string>)
    requires forall i :: 0 <= i < |parts| ==> parts[i] != ""
    ensures RemoveEmpty(parts) == parts
  {
    if parts != [] {
      RemoveEmptyKeeps(parts[1..]);
    }
  }

  /** `s.Split(' ', StringSplitOptions.RemoveEmptyEntries)`. */
  function Words(s: string): (r: seq<string>)
    ensures forall i :: 0 <= i < |r| ==> r[i] != "" && r[i] in Split(s)
    ensures forall p :: p in Split(s) && p != "" ==> p in r
  {
    RemoveEmpty(Split(s))
  }

  /** Every word is non-empty and holds no space. */
  lemma WordsShape(s: string)
    ensures forall i :: 0 <= i < |Words(s)| ==> Words(s)[i] != "" && ' ' !in Words(s)[i]
  {
    SplitJoin(s);
  }

  /** A space separates words: the words of `a + " " + b` are those of `a`
      followed by those of `b`. */
  lemma WordsAppend(a: string, b: string)
    ensures Words(a + " " + b) == Words(a) + Words(b)
  {
    SplitAppend(a, b);
    RemoveEmptyAppend(Split(a), Split(b));
  }

  /** A non-empty run of non-spaces is one word. */
  lemma WordsOfWord(w: string)
    requires w != "" && ' ' !in w
    ensures Words(w) == [w]
  {
    SplitWord(w);
    assert RemoveEmpty([w]) == [w] + RemoveEmpty([]);
  }

  /** A leading or a trailing space changes no word. */
  lemma WordsPadding(s: string)
    ensures Words(" " + s) == Words(s)
    ensures Words(s + " ") == Words(s)
  {
    assert Words("") == [];
    assert "" + " " + s == " " + s;
    WordsAppend("", s);
    assert s + " " + "" == s + " ";
    WordsAppend(s, "");
  }

  /** Runs of spaces collapse: doubling a space, or adding one at either end,
      changes no word. */
  lemma WordsCollapse(a: string, b: string)
    ensures Words(a + "  " + b) == Words(a + " " + b)
    ensures Words(" " + a) == Words(a)
    ensures Words(a + " ") == Words(a)
  {
    assert a + "  " + b == a + " " + (" " + b);
    WordsAppend(a, " " + b);
    WordsPadding(b);
    WordsAppend(a, b);
    WordsPadding(a);
  }

  /** A line has no words exactly when it is empty or all spaces. */
  lemma {:induction false} WordsBlank(s: string)
    ensures Words(s) == [] <==> forall i :: 0 <= i < |s| ==> s[i] == ' '
  {
    if s != [] {
      WordsBlank(s[1..]);
      var t := Split(s[1..]);
      if s[0] == ' ' {
        assert Words(s) == RemoveEmpty([""] + t);
        RemoveEmptyAppend([""], t);
        assert forall i :: 1 <= i < |s| ==> s[i] == s[1..][i - 1];
      } else {
        var first := [s[0]] + t[0];
        assert Split(s) == [first] + t[1..];
        RemoveEmptyAppend([first], t[1..]);
        assert Words(s) != [];
      }
    }
  }

  /** `char.ToLower` on ASCII letters. */
  function LowerChar(c: char): char
  {
    if 'A' <= c <= 'Z' then (c as int + 32) as char else c
  }

  function UpperChar(c: char): char
  {
    if 'a' <= c <= 'z' then (c as int - 32) as char else c
  }

  /** `ToLower()`, character by character. */
  function Lower(s: string): (r: string)
    ensures |r| == |s|
    ensures forall i :: 0 <= i < |s| ==> r[i] == LowerChar(s[i])
  {
    if s == [] then [] else [LowerChar(s[0])] + Lower(s[1..])
  }

  /** `t` spells `w` in any mixture of upper and lower case. */
  predicate SameIgnoringCase(t: string, w: string)
  {
    |t| == |w| && forall i :: 0 <= i < |w| ==> t[i] == w[i] || t[i] == UpperChar(w[i])
  }

  /** Lowering `t` yields the lower-case word `w` exactly when `t` spells
      `w` in any case: the verb is matched case-insensitively. */
  lemma LowerMatches(t: string, w: string)
    requires forall i :: 0 <= i < |w| ==> 'a' <= w[i] <= 'z'
    ensures Lower(t) == w <==> SameIgnoringCase(t, w)
  {
    if Lower(t) == w {
      forall i | 0 <= i < |w| ensures t[i] == w[i] || t[i] == UpperChar(w[i]) {
        assert LowerChar(t[i]) == w[i];
      }
    }
    if SameIgnoringCase(t, w) {
      assert forall i :: 0 <= i < |w| ==> Lower(t)[i] == w[i];
    }
  }
}
