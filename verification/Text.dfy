/** The string functions of the Go library that the code relies on. */
module Text {

  /** The parts of a string between separators; there is always at least one. */
  function Split(s: string, sep: char): (r: seq<string>)
    ensures |r| > 0
    ensures |r| == 1 <==> sep !in s
    ensures sep !in s ==> r == [s]
  {
    if s == "" then [""]
    else
      var rest := Split(s[1..], sep);
      assert s == [s[0]] + s[1..];
      if s[0] == sep then [""] + rest else [[s[0]] + rest[0]] + rest[1..]
  }

  /** A list of texts written one after the other, with a separator between them. */
  function Join(parts: seq<string>, sep: char): string {
    if parts == [] then "" else if |parts| == 1 then parts[0] else parts[0] + [sep] + Join(parts[1..], sep)
  }

  /** A list that can be read back: it has a part, and no part contains the separator. */
  predicate Separable(parts: seq<string>, sep: char) {
    parts != [] && forall part | part in parts :: sep !in part
  }

  lemma {:induction false} PartsAreSeparable(s: string, sep: char)
    ensures Separable(Split(s, sep), sep)
  {
    if s != "" {
      var rest, r := Split(s[1..], sep), Split(s, sep);
      PartsAreSeparable(s[1..], sep);
      assert forall part | part in r :: part == r[0] || part in rest;
      assert rest[0] in rest;
    }
  }

  lemma JoinOne(part: string, rest: seq<string>, sep: char)
    requires rest != []
    ensures Join([part] + rest, sep) == part + [sep] + Join(rest, sep)
  {
    assert ([part] + rest)[1..] == rest;
  }

  lemma JoinLonger(c: char, parts: seq<string>, sep: char)
    requires parts != []
    ensures Join([[c] + parts[0]] + parts[1..], sep) == [c] + Join(parts, sep)
  {
    if |parts| > 1 {
      JoinOne([c] + parts[0], parts[1..], sep);
      assert [c] + parts[0] + [sep] + Join(parts[1..], sep) == [c] + (parts[0] + [sep] + Join(parts[1..], sep));
    }
  }

  lemma {:induction false} PartsJoin(s: string, sep: char)
    ensures Join(Split(s, sep), sep) == s
  {
    if s != "" {
      var rest := Split(s[1..], sep);
      PartsJoin(s[1..], sep);
      assert s == [s[0]] + s[1..];
      if s[0] == sep {
        JoinOne("", rest, sep);
      } else {
        JoinLonger(s[0], rest, sep);
      }
    }
  }

  /** The first part of a text. */
  lemma {:induction false} SplitFirst(part: string, rest: string, sep: char)
    requires sep !in part
    ensures Split(part + [sep] + rest, sep) == [part] + Split(rest, sep)
  {
    var s := part + [sep] + rest;
    if part == "" {
      assert s[1..] == rest;
    } else {
      assert part == [part[0]] + part[1..];
      assert s[0] == part[0] && s[1..] == part[1..] + [sep] + rest;
      SplitFirst(part[1..], rest, sep);
    }
  }

  lemma {:induction false} JoinThenSplit(parts: seq<string>, sep: char)
    requires Separable(parts, sep)
    ensures Split(Join(parts, sep), sep) == parts
  {
    assert parts[0] in parts;
    if |parts| > 1 {
      assert forall part | part in parts[1..] :: part in parts;
      JoinThenSplit(parts[1..], sep);
      SplitFirst(parts[0], Join(parts[1..], sep), sep);
    }
  }

  /** Splitting and joining are inverse to each other: a text has exactly one list of parts. */
  lemma SplitIsUnique(s: string, parts: seq<string>, sep: char)
    ensures Split(s, sep) == parts <==> Separable(parts, sep) && Join(parts, sep) == s
  {
    PartsAreSeparable(s, sep);
    PartsJoin(s, sep);
    if Separable(parts, sep) {
      JoinThenSplit(parts, sep);
    }
  }
}
