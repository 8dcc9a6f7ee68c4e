/** The few string operations of Go's `strings` package that the hook runner
    uses: case folding, `Split` on a one-character separator and `Join`. */
module Text {

  /** `unicode.ToLower` restricted to ASCII letters. */
  function LowerChar(c: char): char
  {
    if 'A' <= c <= 'Z' then (c as int + 32) as char else c
  }

  /** `unicode.ToUpper` restricted to ASCII letters. */
  function UpperChar(c: char): char
  {
    if 'a' <= c <= 'z' then (c as int - 32) as char else c
  }

  predicate IsLetter(c: char)
  {
    'A' <= c <= 'Z' || 'a' <= c <= 'z'
  }

  /** `strings.ToLower` */
  function Lower(s: string): string
  {
    seq(|s|, i requires 0 <= i < |s| => LowerChar(s[i]))
  }

  /** `strings.ToUpper` */
  function Upper(s: string): string
  {
    seq(|s|, i requires 0 <= i < |s| => UpperChar(s[i]))
  }

  /** `strings.ToLower` applied to every element of a list. */
  function LowerAll(ss: seq<string>): (r: seq<string>)
  {
    seq(|ss|, i requires 0 <= i < |ss| => Lower(ss[i]))
  }

  /** `strings.Split(s, string(sep))`: the pieces of `s` between occurrences
      of `sep`. There is always at least one piece; `Split("", sep)` is `[""]`. */
  function Split(s: string, sep: char): (r: seq<string>)
    ensures |r| >= 1
    ensures forall i :: 0 <= i < |r| ==> sep !in r[i]
  {
    if s == [] then [""]
    else
      var rest := Split(s[1..], sep);
      if s[0] == sep then [""] + rest
      else [[s[0]] + rest[0]] + rest[1..]
  }

  /** `strings.Join(parts, sep)` */
  function Join(parts: seq<string>, sep: string): string
  {
    if |parts| == 0 then ""
    else if |parts| == 1 then parts[0]
    else parts[0] + sep + Join(parts[1..], sep)
  }

  // ----- case folding -----

  lemma LowerIdempotent(s: string)
    ensures Lower(Lower(s)) == Lower(s)
  {
  }

  lemma LowerOfUpper(s: string)
    ensures Lower(Upper(s)) == Lower(s)
  {
  }

  lemma LowerConcat(a: string, b: string)
    ensures Lower(a + b) == Lower(a) + Lower(b)
  {
  }

  /** Lowercasing never turns a letter into a non-letter separator, nor the
      other way round. */
  lemma LowerCharIsSep(c: char, sep: char)
    requires !IsLetter(sep)
    ensures LowerChar(c) == sep <==> c == sep
  {
  }

  // ----- Split and Join -----

  /** A string without the separator is its own single piece. */
  lemma {:induction false} SplitWithoutSep(s: string, sep: char)
    requires sep !in s
    ensures Split(s, sep) == [s]
  {
    if s != [] {
      SplitWithoutSep(s[1..], sep);
      assert [s[0]] + s[1..] == s;
    }
  }

  /** Splitting at one occurrence of the separator splits the two sides
      independently. */
  lemma {:induction false} SplitAtSep(a: string, b: string, sep: char)
    ensures Split(a + [sep] + b, sep) == Split(a, sep) + Split(b, sep)
  {
    if a == [] {
      assert a + [sep] + b == [sep] + b;
      assert ([sep] + b)[1..] == b;
    } else {
      assert (a + [sep] + b)[1..] == a[1..] + [sep] + b;
      SplitAtSep(a[1..], b, sep);
    }
  }

  /** Joining the pieces with the separator gives back the string. */
  lemma {:induction false} JoinSplit(s: string, sep: char)
    ensures Join(Split(s, sep), [sep]) == s
  {
    if s != [] {
      var rest := Split(s[1..], sep);
      JoinSplit(s[1..], sep);
      if s[0] == sep {
        assert Split(s, sep) == [""] + rest;
      } else {
        var r := Split(s, sep);
        assert r == [[s[0]] + rest[0]] + rest[1..];
        if |rest| == 1 {
          assert Join(rest, [sep]) == rest[0];
        } else {
          assert r[1..] == rest[1..];
          assert Join(rest, [sep]) == rest[0] + [sep] + Join(rest[1..], [sep]);
        }
      }
    }
  }

  /** Splitting a join of separator-free pieces gives back the pieces. */
  lemma {:induction false} SplitJoin(parts: seq<string>, sep: char)
    requires |parts| >= 1
    requires forall i :: 0 <= i < |parts| ==> sep !in parts[i]
    ensures Split(Join(parts, [sep]), sep) == parts
  {
    if |parts| == 1 {
      SplitWithoutSep(parts[0], sep);
    } else {
      SplitJoin(parts[1..], sep);
      SplitWithoutSep(parts[0], sep);
      assert Join(parts, [sep]) == parts[0] + [sep] + Join(parts[1..], [sep]);
      SplitAtSep(parts[0], Join(parts[1..], [sep]), sep);
      assert parts == [parts[0]] + parts[1..];
    }
  }

  /** Splitting on a non-letter commutes with lowercasing. */
  lemma {:induction false} SplitLower(s: string, sep: char)
    requires !IsLetter(sep)
    ensures Split(Lower(s), sep) == LowerAll(Split(s, sep))
  {
    if s != [] {
      assert Lower(s)[1..] == Lower(s[1..]);
      SplitLower(s[1..], sep);
      LowerCharIsSep(s[0], sep);
      var rest := Split(s[1..], sep);
      var lrest := Split(Lower(s)[1..], sep);
      assert lrest == LowerAll(rest);
      if s[0] != sep {
        LowerConcat([s[0]], rest[0]);
        assert Lower([s[0]]) == [LowerChar(s[0])];
        assert Split(Lower(s), sep) == [[LowerChar(s[0])] + lrest[0]] + lrest[1..];
        assert Split(s, sep) == [[s[0]] + rest[0]] + rest[1..];
      } else {
        assert Split(Lower(s), sep) == [""] + lrest;
      }
    }
  }

  /** Two strings that agree up to case split into pieces that agree up to
      case. */
  lemma SplitSameLower(s: string, t: string, sep: char)
    requires !IsLetter(sep)
    requires Lower(s) == Lower(t)
    ensures LowerAll(Split(s, sep)) == LowerAll(Split(t, sep))
  {
    SplitLower(s, sep);
    SplitLower(t, sep);
  }
}
