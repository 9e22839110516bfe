/** Splitting a string at a separator and joining it again. */
module Text {

  /** The parts between the separators; always at least one. */
  function Split(s: string, sep: char): (r: seq<string>)
    ensures |r| >= 1
  {
    if s == "" then [""]
    else
      var rest := Split(s[1..], sep);
      if s[0] == sep then [""] + rest else [[s[0]] + rest[0]] + rest[1..]
  }

  function Join(parts: seq<string>, sep: char): string
    requires parts != []
  {
    if |parts| == 1 then parts[0] else parts[0] + [sep] + Join(parts[1..], sep)
  }

  ghost predicate Apart(parts: seq<string>, sep: char) {
    forall i :: 0 <= i < |parts| ==> sep !in parts[i]
  }

  lemma {:induction false} SplitThenJoin(s: string, sep: char)
    ensures Join(Split(s, sep), sep) == s && Apart(Split(s, sep), sep)
  {
    if s != "" {
      SplitThenJoin(s[1..], sep);
      var rest := Split(s[1..], sep);
      if s[0] != sep && |rest| > 1 {
        assert Split(s, sep)[1..] == rest[1..];
      }
    }
  }

  lemma {:induction false} JoinThenSplit(parts: seq<string>, sep: char)
    requires parts != [] && Apart(parts, sep)
    ensures Split(Join(parts, sep), sep) == parts
  {
    if |parts| == 1 {
      SplitWord(parts[0], "", sep);
      assert parts[0] + "" == parts[0];
      assert parts == [parts[0]];
    } else {
      var rest := Join(parts[1..], sep);
      JoinThenSplit(parts[1..], sep);
      SplitWord(parts[0], [sep] + rest, sep);
      assert parts[0] + ([sep] + rest) == Join(parts, sep);
      assert ([sep] + rest)[1..] == rest;
      assert Split([sep] + rest, sep) == [""] + parts[1..];
      assert parts[0] + "" == parts[0];
    }
  }

  lemma {:induction false} SplitWord(word: string, rest: string, sep: char)
    requires sep !in word
    ensures Split(word + rest, sep) == [word + Split(rest, sep)[0]] + Split(rest, sep)[1..]
  {
    if word == "" {
      assert word + rest == rest;
      assert word + Split(rest, sep)[0] == Split(rest, sep)[0];
    } else {
      SplitWord(word[1..], rest, sep);
      assert (word + rest)[1..] == word[1..] + rest;
      assert (word + rest)[0] == word[0];
      assert [word[0]] + (word[1..] + Split(rest, sep)[0]) == word + Split(rest, sep)[0];
    }
  }
}
