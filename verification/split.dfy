/** Python's `str.split(',')` with an explicit separator: every comma ends a
    token, empty tokens are kept, and nothing is trimmed. */
module PySplit {

  const Comma: char := ','

  /** Number of commas in `s`. */
  function Commas(s: string): nat
  {
    if |s| == 0 then 0 else (if s[0] == Comma then 1 else 0) + Commas(s[1..])
  }

  /** The tokens of `s.split(',')`, in order. */
  function Split(s: string): (r: seq<string>)
    ensures |r| == Commas(s) + 1
    ensures forall i :: 0 <= i < |r| ==> Comma !in r[i]
    decreases |s|
  {
    if |s| == 0 then [""]
    else if s[0] == Comma then [""] + Split(s[1..])
    else
      var rest := Split(s[1..]);
      [[s[0]] + rest[0]] + rest[1..]
  }

  /** `','.join(parts)`. */
  function Join(parts: seq<string>): string
  {
    if |parts| == 0 then ""
    else if |parts| == 1 then parts[0]
    else parts[0] + [Comma] + Join(parts[1..])
  }

  /** Every token is comma-free, so the tokens can be joined back unambiguously. */
  predicate CommaFree(parts: seq<string>)
  {
    forall i :: 0 <= i < |parts| ==> Comma !in parts[i]
  }

  /** Joining the tokens with commas gives back the original string: splitting loses nothing. */
  lemma {:induction false} JoinSplit(s: string)
    ensures Join(Split(s)) == s
    decreases |s|
  {
    if |s| == 0 {
    } else if s[0] == Comma {
      JoinSplit(s[1..]);
      assert Split(s) == [""] + Split(s[1..]);
      assert s == [Comma] + s[1..];
    } else {
      var rest := Split(s[1..]);
      JoinSplit(s[1..]);
      assert Split(s) == [[s[0]] + rest[0]] + rest[1..];
      if |rest| == 1 {
        assert Join(rest) == rest[0];
      } else {
        assert Join(rest) == rest[0] + [Comma] + Join(rest[1..]);
        assert ([[s[0]] + rest[0]] + rest[1..])[1..] == rest[1..];
      }
      assert s == [s[0]] + s[1..];
    }
  }

  /** Splitting a comma-join of comma-free tokens gives the tokens back. */
  lemma {:induction false} SplitJoin(parts: seq<string>)
    requires |parts| >= 1
    requires CommaFree(parts)
    ensures Split(Join(parts)) == parts
    decreases |parts|, |parts[0]|
  {
    var p := parts[0];
    if |p| == 0 {
      if |parts| > 1 {
        assert Join(parts) == [Comma] + Join(parts[1..]);
        SplitComma(Join(parts[1..]));
        SplitJoin(parts[1..]);
        assert parts == [""] + parts[1..];
      }
    } else {
      var parts' := [p[1..]] + parts[1..];
      assert p[0] != Comma by {
        assert p[0] in p;
      }
      assert CommaFree(parts') by {
        forall i | 0 <= i < |parts'| ensures Comma !in parts'[i] {
          if i == 0 {
            assert forall c :: c in p[1..] ==> c in p;
          } else {
            assert parts'[i] == parts[i];
          }
        }
      }
      JoinFirstChar(parts);
      SplitJoin(parts');
      SplitOther(p[0], Join(parts'));
      assert [p[0]] + p[1..] == p;
      assert parts == [p] + parts'[1..];
    }
  }

  lemma SplitComma(t: string)
    ensures Split([Comma] + t) == [""] + Split(t)
  {
    assert ([Comma] + t)[1..] == t;
  }

  lemma SplitOther(c: char, t: string)
    requires c != Comma
    ensures Split([c] + t) == [[c] + Split(t)[0]] + Split(t)[1..]
  {
    assert ([c] + t)[1..] == t;
  }

  /** The first character of a join whose first token is non-empty is that token's first character. */
  lemma JoinFirstChar(parts: seq<string>)
    requires |parts| >= 1 && |parts[0]| > 0
    ensures Join(parts) == [parts[0][0]] + Join([parts[0][1..]] + parts[1..])
  {
    var p := parts[0];
    var parts' := [p[1..]] + parts[1..];
    assert p == [p[0]] + p[1..];
    if |parts| > 1 {
      assert parts'[1..] == parts[1..];
    }
  }

  /** `s.split(',')` always yields at least one token, and yields exactly one iff `s` has no comma. */
  lemma SingleTokenIffNoComma(s: string)
    ensures |Split(s)| == 1 <==> Comma !in s
  {
    CommasZeroIffAbsent(s);
  }

  lemma {:induction false} CommasZeroIffAbsent(s: string)
    ensures Commas(s) == 0 <==> Comma !in s
    decreases |s|
  {
    if |s| > 0 {
      CommasZeroIffAbsent(s[1..]);
      assert s == [s[0]] + s[1..];
    }
  }
}
