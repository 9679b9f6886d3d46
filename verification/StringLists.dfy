/** Sorting a list of strings and removing duplicates: the result depends on the elements only. */
module StringLists {

  /** Go's `<` on strings. */
  predicate Less(a: string, b: string) {
    b != "" && (a == "" || a[0] < b[0] || (a[0] == b[0] && Less(a[1..], b[1..])))
  }

  function Insert(x: string, s: seq<string>): seq<string> {
    if s == [] then [x]
    else if Less(s[0], x) then [s[0]] + Insert(x, s[1..])
    else [x] + s
  }

  function Sorted(s: seq<string>): seq<string> {
    if s == [] then [] else Insert(s[0], Sorted(s[1..]))
  }

  /** Drops each element equal to its successor. */
  function Compact(s: seq<string>): seq<string> {
    if |s| < 2 then s
    else if s[0] == s[1] then Compact(s[1..])
    else [s[0]] + Compact(s[1..])
  }

  function SortAndRemoveDuplicates(s: seq<string>): seq<string> {
    Compact(Sorted(s))
  }

  ghost predicate SameElements(a: seq<string>, b: seq<string>) {
    forall x :: x in a <==> x in b
  }

  /** Every element is below all later ones. */
  ghost predicate StrictlyUp(s: seq<string>) {
    s != [] ==> (forall x | x in s[1..] :: Less(s[0], x)) && StrictlyUp(s[1..])
  }

  /** No element is above a later one. */
  ghost predicate WeaklyUp(s: seq<string>) {
    s != [] ==> (forall x | x in s[1..] :: !Less(x, s[0])) && WeaklyUp(s[1..])
  }

  lemma {:induction false} LessIsTotal(a: string, b: string)
    ensures a == b || Less(a, b) || Less(b, a)
    ensures !(Less(a, b) && Less(b, a)) && !Less(a, a)
  {
    if a != "" && b != "" {
      LessIsTotal(a[1..], b[1..]);
      assert a == [a[0]] + a[1..] && b == [b[0]] + b[1..];
    }
    if a != "" {
      LessIsTotal(a[1..], a[1..]);
    }
  }

  lemma {:induction false} LessIsTransitive(a: string, b: string, c: string)
    ensures Less(a, b) && Less(b, c) ==> Less(a, c)
    ensures !Less(b, a) && !Less(c, b) ==> !Less(c, a)
  {
    if a != "" && b != "" && c != "" {
      LessIsTransitive(a[1..], b[1..], c[1..]);
    }
  }

  lemma {:induction false} InsertKeeps(x: string, s: seq<string>)
    requires WeaklyUp(s)
    ensures WeaklyUp(Insert(x, s))
    ensures forall y :: y in Insert(x, s) <==> y == x || y in s
  {
    if s != [] {
      InsertKeeps(x, s[1..]);
      var r := Insert(x, s);
      if Less(s[0], x) {
        LessIsTotal(s[0], x);
        assert r[1..] == Insert(x, s[1..]);
      } else {
        assert r[1..] == s;
        forall y | y in s ensures !Less(y, x) {
          if y != s[0] {
            assert y in s[1..];
            LessIsTransitive(x, s[0], y);
          }
        }
      }
    }
  }

  lemma {:induction false} SortedIsUp(s: seq<string>)
    ensures WeaklyUp(Sorted(s)) && SameElements(Sorted(s), s)
  {
    if s != [] {
      SortedIsUp(s[1..]);
      InsertKeeps(s[0], Sorted(s[1..]));
    }
  }

  lemma {:induction false} CompactIsStrict(s: seq<string>)
    requires WeaklyUp(s)
    ensures StrictlyUp(Compact(s)) && SameElements(Compact(s), s)
    ensures s != [] ==> Compact(s) != [] && Compact(s)[0] == s[0]
  {
    if |s| >= 2 {
      CompactIsStrict(s[1..]);
      if s[0] != s[1] {
        var rest := Compact(s[1..]);
        assert Compact(s)[1..] == rest;
        LessIsTotal(s[0], s[1]);
        assert s[1] in s[1..] && Less(s[0], s[1]);
        forall x | x in rest ensures Less(s[0], x) {
          assert x in s[1..];
          if x != s[1] {
            assert x in s[1..][1..];
            LessIsTotal(s[1], x);
            LessIsTransitive(s[0], s[1], x);
          }
        }
      }
    }
  }

  lemma EmptyHasNoElements(s: seq<string>)
    ensures s == [] <==> forall x :: x !in s
  {
    if s != [] {
      assert s[0] in s;
    }
  }

  lemma {:induction false} StrictIsCanonical(a: seq<string>, b: seq<string>)
    requires StrictlyUp(a) && StrictlyUp(b) && SameElements(a, b)
    ensures a == b
  {
    if a != [] && b != [] {
      assert a[0] in b && b[0] in a;
      LessIsTotal(a[0], b[0]);
      assert a[0] == b[0];
      forall x ensures x in a[1..] <==> x in b[1..] {
        LessIsTotal(a[0], a[0]);
        assert x in a <==> x == a[0] || x in a[1..];
        assert x in b <==> x == b[0] || x in b[1..];
      }
      StrictIsCanonical(a[1..], b[1..]);
    }
    EmptyHasNoElements(a);
    EmptyHasNoElements(b);
  }

  /** The result is strictly increasing and has exactly the elements given. */
  lemma SortAndRemoveDuplicatesMeaning(s: seq<string>)
    ensures StrictlyUp(SortAndRemoveDuplicates(s)) && SameElements(SortAndRemoveDuplicates(s), s)
  {
    SortedIsUp(s);
    CompactIsStrict(Sorted(s));
  }

  /** Order and repetition of the input do not matter. */
  lemma OnlyElementsMatter(a: seq<string>, b: seq<string>)
    requires SameElements(a, b)
    ensures SortAndRemoveDuplicates(a) == SortAndRemoveDuplicates(b)
  {
    SortAndRemoveDuplicatesMeaning(a);
    SortAndRemoveDuplicatesMeaning(b);
    StrictIsCanonical(SortAndRemoveDuplicates(a), SortAndRemoveDuplicates(b));
  }
}
