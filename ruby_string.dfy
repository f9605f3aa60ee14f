/** Ruby's `String#split` with a one-character separator, as the option
    decoders use it: every occurrence of the separator ends a field, empty
    fields in the middle and at the front are kept, and all trailing empty
    fields are dropped (so `"".split(',')` and `",,".split(',')` are `[]`). */
module RubyString {

  /** Position of the first `c` in `s`. */
  function IndexOf(s: string, c: char): (i: nat)
    requires c in s
    ensures i < |s| && s[i] == c && c !in s[..i]
  {
    if s[0] == c then 0
    else
      var j := IndexOf(s[1..], c);
      assert s[1..][..j] == s[1..j + 1];
      j + 1
  }

  /** All fields of `s` between separators, empty ones included. */
  function Fields(s: string, sep: char): (r: seq<string>)
    ensures |r| >= 1
    decreases |s|
  {
    if sep !in s then [s]
    else
      var i := IndexOf(s, sep);
      [s[..i]] + Fields(s[i + 1..], sep)
  }

  /** Glues fields back together with the separator between them. */
  function Join(fields: seq<string>, sep: char): string
  {
    if |fields| == 0 then ""
    else if |fields| == 1 then fields[0]
    else fields[0] + [sep] + Join(fields[1..], sep)
  }

  /** Drops every empty field at the end. */
  function StripTrailingEmpty(fields: seq<string>): (r: seq<string>)
    ensures r <= fields
    ensures r == [] || r[|r| - 1] != ""
    ensures forall i :: |r| <= i < |fields| ==> fields[i] == ""
  {
    if fields != [] && fields[|fields| - 1] == "" then StripTrailingEmpty(fields[..|fields| - 1])
    else fields
  }

  /** `s.split(sep)` */
  function Split(s: string, sep: char): seq<string>
  {
    StripTrailingEmpty(Fields(s, sep))
  }

  /** No field holds the separator, and joining the fields gives back the
      input: `Fields` cuts `s` at every separator and nowhere else. */
  lemma {:induction false} FieldsJoin(s: string, sep: char)
    ensures Join(Fields(s, sep), sep) == s
    ensures forall i :: 0 <= i < |Fields(s, sep)| ==> sep !in Fields(s, sep)[i]
    decreases |s|
  {
    if sep in s {
      var i := IndexOf(s, sep);
      FieldsJoin(s[i + 1..], sep);
      var rest := Fields(s[i + 1..], sep);
      assert Fields(s, sep) == [s[..i]] + rest;
      assert ([s[..i]] + rest)[1..] == rest;
      assert s == s[..i] + [sep] + s[i + 1..];
    }
  }

  /** Cutting at the first separator: `Fields(k + sep + rest) == [k] + Fields(rest)`. */
  lemma FieldsCons(k: string, sep: char, rest: string)
    requires sep !in k
    ensures Fields(k + [sep] + rest, sep) == [k] + Fields(rest, sep)
  {
    var s := k + [sep] + rest;
    assert s[|k|] == sep && s[..|k|] == k;
    var i := IndexOf(s, sep);
    assert s[..i] == k;
    assert s[i + 1..] == rest;
  }

  /** A field followed by more fields survives stripping unless all are empty. */
  lemma StripCons(a: string, fields: seq<string>)
    ensures StripTrailingEmpty([a] + fields) ==
            if a == "" && StripTrailingEmpty(fields) == [] then [] else [a] + StripTrailingEmpty(fields)
    decreases |fields|
  {
    if fields != [] && fields[|fields| - 1] == "" {
      assert ([a] + fields)[..|fields|] == [a] + fields[..|fields| - 1];
      StripCons(a, fields[..|fields| - 1]);
    }
  }

  /** `"".split(sep) == []` */
  lemma SplitEmpty(sep: char)
    ensures Split("", sep) == []
  {
    assert Fields("", sep) == [""];
    assert StripTrailingEmpty([""]) == StripTrailingEmpty([]);
  }

  /** A non-empty string without the separator is a single field. */
  lemma SplitNoSeparator(s: string, sep: char)
    requires s != "" && sep !in s
    ensures Split(s, sep) == [s]
  {
  }

  /** Splitting `k + sep + rest` yields `k` first, unless `k` is empty and
      nothing non-empty follows. */
  lemma {:induction false} SplitCons(k: string, sep: char, rest: string)
    requires sep !in k
    ensures Split(k + [sep] + rest, sep) ==
            if k == "" && Split(rest, sep) == [] then [] else [k] + Split(rest, sep)
  {
    FieldsCons(k, sep, rest);
    StripCons(k, Fields(rest, sep));
  }

  /** The fields `split` returns never contain the separator, the last one is
      never empty, and they are the leading fields of the input in order. */
  lemma SplitFields(s: string, sep: char)
    ensures Split(s, sep) <= Fields(s, sep)
    ensures forall i :: 0 <= i < |Split(s, sep)| ==> sep !in Split(s, sep)[i]
    ensures Split(s, sep) == [] || Split(s, sep)[|Split(s, sep)| - 1] != ""
  {
    FieldsJoin(s, sep);
    var f, r := Fields(s, sep), Split(s, sep);
    forall i | 0 <= i < |r| ensures sep !in r[i] {
      assert r[i] == f[i];
    }
  }
}
