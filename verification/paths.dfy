/** Dotted tag paths used by the record reader.

    A record reader's tag is the parent's tag and the field name joined with
    '.', and the node for a tag is found by splitting the tag on '.' again and
    walking the segments (ConfigurationNodeParser.kt lines 128-135). `Split`
    follows Kotlin's `String.split('.')`: empty segments are kept, so a string
    with k separators always has k + 1 segments.
 */
module Paths {

  const Separator: char := '.'

  /** `Join` is the inverse of `Split`: it puts the separator back between segments. */
  function Join(parts: seq<string>): string
    requires |parts| >= 1
    decreases |parts|
  {
    if |parts| == 1 then parts[0] else parts[0] + [Separator] + Join(parts[1..])
  }

  /** Kotlin's `tag.split('.')`. */
  function Split(s: string): (parts: seq<string>)
    ensures |parts| >= 1
    ensures forall i :: 0 <= i < |parts| ==> Separator !in parts[i]
    ensures Join(parts) == s
    decreases |s|
  {
    if s == [] then [[]]
    else
      var rest := Split(s[1..]);
      if s[0] == Separator then
        assert [s[0]] + Join(rest) == s;
        [[]] + rest
      else
        var parts := [[s[0]] + rest[0]] + rest[1..];
        assert parts[1..] == rest[1..];
        assert Join(parts) == [s[0]] + Join(rest) by {
          if |rest| > 1 {
            assert Join(rest) == rest[0] + [Separator] + Join(rest[1..]);
          }
        }
        assert [s[0]] + s[1..] == s;
        parts
  }

  /** `composeName`: the root's fields are addressed by their bare name, any
      deeper field by the parent's tag, a separator and its own name. */
  function ComposeName(parentName: string, childName: string): string
  {
    if parentName == [] then childName else parentName + [Separator] + childName
  }

  /** A string without a separator is a single segment. */
  lemma {:induction false} SplitPlain(s: string)
    requires Separator !in s
    ensures Split(s) == [s]
    decreases |s|
  {
    if s != [] {
      assert Separator !in s[1..] by {
        forall i | 0 <= i < |s[1..]| ensures s[1..][i] != Separator {
          assert s[1..][i] == s[i + 1];
        }
      }
      SplitPlain(s[1..]);
      assert [s[0]] + s[1..] == s;
    }
  }

  /** Splitting distributes over a separator: the segments of `a.b` are the
      segments of `a` followed by the segments of `b`. */
  lemma {:induction false} SplitAround(a: string, b: string)
    ensures Split(a + [Separator] + b) == Split(a) + Split(b)
    decreases |a|
  {
    var s := a + [Separator] + b;
    if a == [] {
      assert s[0] == Separator && s[1..] == b;
    } else {
      assert s[0] == a[0];
      assert s[1..] == a[1..] + [Separator] + b;
      SplitAround(a[1..], b);
    }
  }

  /** The segments of a composed tag are the parent's segments followed by the
      child's name; at the root the tag is the child's name alone. */
  lemma ComposedTagSplits(parentName: string, childName: string)
    requires Separator !in childName
    ensures parentName == [] ==> Split(ComposeName(parentName, childName)) == [childName]
    ensures parentName != [] ==> Split(ComposeName(parentName, childName)) == Split(parentName) + [childName]
  {
    SplitPlain(childName);
    if parentName != [] {
      SplitAround(parentName, childName);
    }
  }

  /** `Split` undoes `Join` on separator-free segments. */
  lemma {:induction false} SplitJoin(parts: seq<string>)
    requires |parts| >= 1
    requires forall i :: 0 <= i < |parts| ==> Separator !in parts[i]
    ensures Split(Join(parts)) == parts
    decreases |parts|
  {
    SplitPlain(parts[0]);
    if |parts| > 1 {
      SplitJoin(parts[1..]);
      SplitAround(parts[0], Join(parts[1..]));
      assert [parts[0]] + parts[1..] == parts;
    }
  }
}
