/** The two functions of Go's `strings` package that the collection-spec parser relies on,
    specialised to a separator of one character. */
module GoStrings {

  /** `strings.Index(s, sep)`: the position of the first `sep` in `s`, or -1 when there is none. */
  function Index(s: string, sep: char): (i: int)
    ensures -1 <= i < |s|
    ensures i == -1 <==> sep !in s
    ensures 0 <= i ==> s[i] == sep && sep !in s[..i]
  {
    if s == [] then -1
    else if s[0] == sep then 0
    else
      var j := Index(s[1..], sep);
      if j == -1 then -1
      else
        assert s[..j + 1] == [s[0]] + s[1..][..j];
        j + 1
  }

  /** `strings.SplitN(s, sep, 2)`: `s` cut at its first `sep` into two parts, or `[s]`
      when `sep` does not occur (this includes the empty string). */
  function SplitN2(s: string, sep: char): (parts: seq<string>)
    ensures |parts| == 1 || |parts| == 2
    ensures |parts| == 2 <==> sep in s
    ensures |parts| == 1 ==> parts[0] == s
    ensures |parts| == 2 ==> parts[0] + [sep] + parts[1] == s && sep !in parts[0]
  {
    var i := Index(s, sep);
    if i < 0 then [s]
    else
      assert s == s[..i] + [sep] + s[i + 1..];
      [s[..i], s[i + 1..]]
  }

  /** Cutting at the first separator is the inverse of joining with a separator, provided
      the left part has no separator of its own; the right part may hold any text. */
  lemma SplitN2Join(left: string, sep: char, right: string)
    requires sep !in left
    ensures SplitN2(left + [sep] + right, sep) == [left, right]
  {
    var s := left + [sep] + right;
    assert s[..|left|] == left;
    assert s[|left|] == sep;
    assert s[|left| + 1..] == right;
  }
}
