/** What several parts of the model share. */
module Basics {

  datatype Option<+T> = None | Some(value: T)

  /** The parts of a text between separators, including empty ones. */
  function Split(s: string, sep: char): (r: seq<string>)
    ensures |r| > 0
  {
    if s == "" then [""] else Extend(s[0], sep, Split(s[1..], sep))
  }

  /** One more character in front: a new part, or a longer first one. */
  function Extend(c: char, sep: char, rest: seq<string>): (r: seq<string>)
    requires |rest| > 0
    ensures |r| > 0
  {
    if c == sep then [""] + rest else [[c] + rest[0]] + rest[1..]
  }

  lemma ExtendAppend(c: char, sep: char, a: seq<string>, b: seq<string>)
    requires |a| > 0
    ensures Extend(c, sep, a + b) == Extend(c, sep, a) + b
  {
  }

  lemma {:induction false} SplitAtSeparator(a: string, sep: char, b: string)
    ensures Split(a + [sep] + b, sep) == Split(a, sep) + Split(b, sep)
  {
    var s := a + [sep] + b;
    if a == "" {
      assert s[1..] == b;
    } else {
      SplitAtSeparator(a[1..], sep, b);
      assert s[1..] == a[1..] + [sep] + b && s[0] == a[0];
      hide Extend;
      assert Split(s, sep) == Extend(a[0], sep, Split(a[1..], sep) + Split(b, sep));
      ExtendAppend(a[0], sep, Split(a[1..], sep), Split(b, sep));
    }
  }

  lemma {:induction false} SplitPartsHaveNone(s: string, sep: char)
    ensures forall i | 0 <= i < |Split(s, sep)| :: sep !in Split(s, sep)[i]
  {
    if s != "" { SplitPartsHaveNone(s[1..], sep); }
  }

  lemma {:induction false} SplitWithout(s: string, sep: char)
    requires sep !in s
    ensures Split(s, sep) == [s]
  {
    if s != "" {
      SplitWithout(s[1..], sep);
      assert s == [s[0]] + s[1..];
    }
  }

  lemma SplitField(field: string, sep: char, rest: string)
    requires sep !in field
    ensures Split(field + [sep] + rest, sep) == [field] + Split(rest, sep)
  {
    SplitAtSeparator(field, sep, rest);
    SplitWithout(field, sep);
  }
}
