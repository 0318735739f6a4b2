/** The string built-ins the components rely on: `toLowerCase`, `toUpperCase`,
    `includes`, `replace`, `split` and `join`. Case mapping covers the ASCII
    letters only. */
module Text {

  function LowerChar(c: char): char
  {
    if 'A' <= c <= 'Z' then (c as int + 32) as char else c
  }

  function UpperChar(c: char): char
  {
    if 'a' <= c <= 'z' then (c as int - 32) as char else c
  }

  /** `s.toLowerCase()`. */
  function Lower(s: string): (r: string)
    ensures |r| == |s|
    ensures forall i :: 0 <= i < |s| ==> r[i] == LowerChar(s[i])
  {
    if s == [] then [] else [LowerChar(s[0])] + Lower(s[1..])
  }

  /** `s.toUpperCase()`. */
  function Upper(s: string): (r: string)
    ensures |r| == |s|
    ensures forall i :: 0 <= i < |s| ==> r[i] == UpperChar(s[i])
  {
    if s == [] then [] else [UpperChar(s[0])] + Upper(s[1..])
  }

  /** `q` occurs in `s` as a contiguous block. */
  ghost predicate IsSubstring(q: string, s: string)
  {
    exists k :: 0 <= k <= |s| - |q| && q <= s[k..]
  }

  /** `s.includes(q)`, scanning the start positions of `s` from the left. */
  function Contains(s: string, q: string): (r: bool)
    ensures |q| <= |s| && s[..|q|] == q ==> r
    ensures r ==> |q| <= |s|
    decreases |s|
  {
    if |q| > |s| then false
    else if s[..|q|] == q then true
    else Contains(s[1..], q)
  }

  lemma {:induction false} ContainsIsSubstring(s: string, q: string)
    ensures Contains(s, q) <==> IsSubstring(q, s)
    decreases |s|
  {
    if |q| > |s| {
    } else if s[..|q|] == q {
      assert q <= s[0..];
    } else {
      ContainsIsSubstring(s[1..], q);
      if IsSubstring(q, s[1..]) {
        var k :| 0 <= k <= |s[1..]| - |q| && q <= s[1..][k..];
        assert s[1..][k..] == s[k + 1..];
      }
      if IsSubstring(q, s) {
        var k :| 0 <= k <= |s| - |q| && q <= s[k..];
        assert k != 0;
        assert s[1..][k - 1..] == s[k..];
      }
    }
  }

  /** `s.replace(/from/g, to)` for a single character `from`. */
  function ReplaceChar(s: string, from: char, to: char): (r: string)
    ensures |r| == |s|
    ensures forall i :: 0 <= i < |s| ==> r[i] == if s[i] == from then to else s[i]
  {
    if s == [] then [] else [if s[0] == from then to else s[0]] + ReplaceChar(s[1..], from, to)
  }

  /** `s.split(sep)`: never empty; two adjacent separators give an empty word. */
  function Split(s: string, sep: char): (words: seq<string>)
    ensures |words| >= 1
    ensures forall w :: w in words ==> sep !in w
  {
    if s == [] then [[]]
    else
      var rest := Split(s[1..], sep);
      if s[0] == sep then [[]] + rest else [[s[0]] + rest[0]] + rest[1..]
  }

  /** `words.join(sep)`: the separator occurs in the result iff there are two words or more,
      or one of the words contains it. */
  function Join(words: seq<string>, sep: char): (r: string)
    ensures sep in r <==> |words| >= 2 || exists w :: w in words && sep in w
  {
    if words == [] then []
    else if |words| == 1 then words[0]
    else words[0] + [sep] + Join(words[1..], sep)
  }

  /** A character put in front of the first word can be put in front of the join. */
  lemma JoinPrepend(c: char, w: string, words: seq<string>, sep: char)
    ensures Join([[c] + w] + words, sep) == [c] + Join([w] + words, sep)
  {
    if words != [] {
      assert ([[c] + w] + words)[1..] == words;
      assert ([w] + words)[1..] == words;
    }
  }

  /** Splitting and re-joining with the same separator gives back the string. */
  lemma {:induction false} JoinSplit(s: string, sep: char)
    ensures Join(Split(s, sep), sep) == s
  {
    if s != [] {
      var rest := Split(s[1..], sep);
      JoinSplit(s[1..], sep);
      if s[0] == sep {
        assert ([[]] + rest)[1..] == rest;
      } else {
        assert rest == [rest[0]] + rest[1..];
        JoinPrepend(s[0], rest[0], rest[1..], sep);
      }
    }
  }
}
