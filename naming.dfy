/** How a registered unit is named: the type string is split on '.', the
    second piece is the base name, and the decimal id the generator hands out
    for that base name is appended to it. This module models the two library
    functions involved, splitting on a separator and decimal formatting of a
    non-negative count, and proves what naming relies on. */
module Naming {
  import Ids

  /** Splitting `s` at every occurrence of `sep`: the pieces between
      separators, one more piece than there are separators, so the empty
      string gives one empty piece. */
  function Split(s: string, sep: char): (parts: seq<string>)
    ensures |parts| >= 1
    ensures |parts| >= 2 <==> sep in s
    ensures forall i :: 0 <= i < |parts| ==> sep !in parts[i]
    decreases |s|
  {
    if s == [] then [""]
    else
      var rest := Split(s[1..], sep);
      assert s == [s[0]] + s[1..];
      if s[0] == sep then [""] + rest
      else [[s[0]] + rest[0]] + rest[1..]
  }

  /** The pieces put back together with `sep` between neighbours. */
  function Join(parts: seq<string>, sep: char): string
    requires |parts| >= 1
    decreases |parts|
  {
    if |parts| == 1 then parts[0] else parts[0] + [sep] + Join(parts[1..], sep)
  }

  /** Joining the pieces of a split gives back the original string. */
  lemma {:induction false} JoinSplit(s: string, sep: char)
    ensures Join(Split(s, sep), sep) == s
    decreases |s|
  {
    if s != [] {
      JoinSplit(s[1..], sep);
      var rest := Split(s[1..], sep);
      if s[0] == sep {
        assert ([""] + rest)[1..] == rest;
      } else {
        var parts := [[s[0]] + rest[0]] + rest[1..];
        if |rest| > 1 {
          assert parts[1..] == rest[1..];
        }
      }
    }
  }

  /** A string without the separator splits into itself alone. */
  lemma {:induction false} SplitWithoutSeparator(a: string, sep: char)
    requires sep !in a
    ensures Split(a, sep) == [a]
    decreases |a|
  {
    if a != [] {
      SplitWithoutSeparator(a[1..], sep);
      assert [a[0]] + a[1..] == a;
    }
  }

  /** A first piece without the separator, the separator, then the rest. */
  lemma {:induction false} SplitAfterPiece(a: string, b: string, sep: char)
    requires sep !in a
    ensures Split(a + [sep] + b, sep) == [a] + Split(b, sep)
    decreases |a|
  {
    if a == [] {
      assert a + [sep] + b == [sep] + b;
      assert ([sep] + b)[1..] == b;
    } else {
      assert (a + [sep] + b)[1..] == a[1..] + [sep] + b;
      SplitAfterPiece(a[1..], b, sep);
      assert [a[0]] + a[1..] == a;
    }
  }

  /** Splitting a join of separator-free pieces gives back the pieces: with
      JoinSplit, Split and Join are inverse to each other. */
  lemma {:induction false} SplitJoin(parts: seq<string>, sep: char)
    requires |parts| >= 1
    requires forall i :: 0 <= i < |parts| ==> sep !in parts[i]
    ensures Split(Join(parts, sep), sep) == parts
    decreases |parts|
  {
    if |parts| == 1 {
      SplitWithoutSeparator(parts[0], sep);
    } else {
      SplitJoin(parts[1..], sep);
      SplitAfterPiece(parts[0], Join(parts[1..], sep), sep);
    }
  }

  predicate IsDigit(c: char)
  {
    '0' <= c <= '9'
  }

  function DigitChar(d: nat): (c: char)
    requires d < 10
  {
    ('0' as int + d) as char
  }

  function DigitValue(c: char): nat
    requires IsDigit(c)
  {
    c as int - '0' as int
  }

  /** Decimal formatting of a non-negative count: digits only, at least one,
      and a leading zero only for zero itself. */
  function Itoa(n: nat): (s: string)
    ensures |s| >= 1
    ensures forall i :: 0 <= i < |s| ==> IsDigit(s[i])
    ensures s[0] == '0' <==> n == 0
    decreases n
  {
    if n < 10 then [DigitChar(n)] else Itoa(n / 10) + [DigitChar(n % 10)]
  }

  /** Reading a string of decimal digits as a number. */
  function Atoi(s: string): nat
    requires forall i :: 0 <= i < |s| ==> IsDigit(s[i])
    decreases |s|
  {
    if s == [] then 0 else Atoi(s[..|s| - 1]) * 10 + DigitValue(s[|s| - 1])
  }

  /** Reading back a formatted count gives the count. */
  lemma {:induction false} AtoiItoa(n: nat)
    ensures Atoi(Itoa(n)) == n
    decreases n
  {
    if n >= 10 {
      AtoiItoa(n / 10);
      var s := Itoa(n);
      assert s[..|s| - 1] == Itoa(n / 10);
    }
  }

  /** Distinct counts format to distinct strings. */
  lemma ItoaInjective(m: nat, n: nat)
    requires Itoa(m) == Itoa(n)
    ensures m == n
  {
    AtoiItoa(m);
    AtoiItoa(n);
  }

  /** The base name of a type string: its second '.'-separated piece. It
      exists exactly when the type string contains a '.'. */
  function BaseName(typeName: string): (base: string)
    requires '.' in typeName
    ensures '.' !in base
  {
    Split(typeName, '.')[1]
  }

  /** A unit's name: its base name followed by the decimal id. The base
      name is a proper prefix, and what follows it is all digits and reads
      back as the id. */
  function UnitName(base: string, id: nat): (name: string)
    ensures |name| > |base| && name[..|base|] == base
    ensures forall i :: |base| <= i < |name| ==> IsDigit(name[i])
    ensures Atoi(name[|base|..]) == id
  {
    AtoiItoa(id);
    assert (base + Itoa(id))[|base|..] == Itoa(id);
    base + Itoa(id)
  }

  /** Names made from one base name with different ids are different. */
  lemma SameBaseNamesDistinct(base: string, i: nat, j: nat)
    requires i != j
    ensures UnitName(base, i) != UnitName(base, j)
  {
  }

  /** Registering units whose type strings have the base names `bases`, in
      that order, with a generator holding `ids`: any two units with the same
      base name receive different names. */
  lemma RegisteredNamesDistinct(ids: map<string, nat>, bases: seq<string>, i: nat, j: nat)
    requires i < j < |bases|
    requires bases[i] == bases[j]
    ensures UnitName(bases[i], Ids.Issue(ids, bases)[i]) != UnitName(bases[j], Ids.Issue(ids, bases)[j])
  {
    Ids.IssuedIncreasing(ids, bases, i, j);
    SameBaseNamesDistinct(bases[i], Ids.Issue(ids, bases)[i], Ids.Issue(ids, bases)[j]);
  }

  /** Names made from different base names can coincide: the eleventh unit
      with base name "Worker" and the first with base name "Worker1" are both
      called "Worker10". */
  lemma NamesCollideAcrossBases()
    ensures UnitName("Worker", 10) == UnitName("Worker1", 0)
  {
    assert Itoa(10) == Itoa(1) + [DigitChar(0)];
  }
}
