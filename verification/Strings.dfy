/** Cutting text at a separator, as Go's `strings` package does. */
module Strings {

  /** `strings.Split(s, sep)` for a separator of one character. */
  function Split(s: string, sep: char): (parts: seq<string>)
    ensures |parts| > 0
  {
    if s == "" then [""]
    else
      var rest := Split(s[1..], sep);
      if s[0] == sep then [""] + rest else [[s[0]] + rest[0]] + rest[1..]
  }

  /** `strings.Join(parts, sep)` */
  function Join(parts: seq<string>, sep: char): string {
    if parts == [] then "" else if |parts| == 1 then parts[0] else parts[0] + [sep] + Join(parts[1..], sep)
  }

  function Occurrences(s: string, c: char): nat {
    if s == "" then 0 else (if s[0] == c then 1 else 0) + Occurrences(s[1..], c)
  }

  lemma {:induction false} SplitCount(s: string, sep: char)
    ensures |Split(s, sep)| == Occurrences(s, sep) + 1
  {
    if s != "" {
      SplitCount(s[1..], sep);
    }
  }

  lemma {:induction false} SplitPrefix(part: string, rest: string, sep: char)
    requires sep !in part
    ensures Split(part + rest, sep) == [part + Split(rest, sep)[0]] + Split(rest, sep)[1..]
  {
    if part == "" {
      assert part + rest == rest && part + Split(rest, sep)[0] == Split(rest, sep)[0];
    } else {
      SplitPrefix(part[1..], rest, sep);
      assert (part + rest)[1..] == part[1..] + rest && part[0] in part;
      var tail := Split(rest, sep);
      assert [part[0]] + (part[1..] + tail[0]) == part + tail[0];
    }
  }

  /** Joining and splitting again gives back the parts. */
  lemma {:induction false} SplitOfJoin(parts: seq<string>, sep: char)
    requires parts != [] && forall i :: 0 <= i < |parts| ==> sep !in parts[i]
    ensures Split(Join(parts, sep), sep) == parts
  {
    if |parts| == 1 {
      SplitPrefix(parts[0], "", sep);
      assert parts[0] + "" == parts[0];
    } else {
      SplitOfJoin(parts[1..], sep);
      var rest := [sep] + Join(parts[1..], sep);
      assert rest[1..] == Join(parts[1..], sep);
      SplitPrefix(parts[0], rest, sep);
      assert parts[0] + rest == Join(parts, sep);
      assert parts[0] + "" == parts[0];
    }
  }
}
