/** Strings as the configuration code treats them: trimming, lower case, the order
    in which lists are sorted, and sorted lists without duplicates. */
module Text {

  predicate Space(c: char) { c == ' ' || c == '\t' || c == '\n' || c == '\r' || c == '\U{0B}' || c == '\U{0C}' }

  function TrimLeft(s: string): string {
    if s != "" && Space(s[0]) then TrimLeft(s[1..]) else s
  }

  function TrimRight(s: string): string {
    if s != "" && Space(s[|s| - 1]) then TrimRight(s[..|s| - 1]) else s
  }

  function Trim(s: string): string { TrimRight(TrimLeft(s)) }

  predicate Trimmed(s: string) { s == "" || (!Space(s[0]) && !Space(s[|s| - 1])) }

  lemma {:induction false} TrimRightEnds(s: string)
    ensures TrimRight(s) <= s && (TrimRight(s) == "" || !Space(TrimRight(s)[|TrimRight(s)| - 1]))
  {
    if s != "" && Space(s[|s| - 1]) { TrimRightEnds(s[..|s| - 1]); }
  }

  lemma {:induction false} TrimLeftEnds(s: string)
    ensures TrimLeft(s) == "" || !Space(TrimLeft(s)[0])
  {
    if s != "" && Space(s[0]) { TrimLeftEnds(s[1..]); }
  }

  /** Trimming always gives a trimmed string and changes nothing that is one. */
  lemma {:induction false} TrimTrims(s: string)
    ensures Trimmed(Trim(s)) && (Trim(s) == s <==> Trimmed(s))
  {
    TrimLeftEnds(s);
    TrimRightEnds(TrimLeft(s));
    if Trimmed(s) { assert TrimLeft(s) == s; }
  }

  lemma {:induction false} TrimRightExactly(s: string)
    ensures TrimRight(s) <= s && forall k :: |TrimRight(s)| <= k < |s| ==> Space(s[k])
  {
    if s != "" && Space(s[|s| - 1]) { TrimRightExactly(s[..|s| - 1]); }
  }

  lemma {:induction false} TrimLeftExactly(s: string)
    ensures |TrimLeft(s)| <= |s| && TrimLeft(s) == s[|s| - |TrimLeft(s)|..]
    ensures forall k :: 0 <= k < |s| - |TrimLeft(s)| ==> Space(s[k])
  {
    if s != "" && Space(s[0]) {
      TrimLeftExactly(s[1..]);
      forall k | 0 <= k < |s| - |TrimLeft(s)| ensures Space(s[k]) {
        if k > 0 { assert s[k] == s[1..][k - 1]; }
      }
    }
  }

  /** Trimming cuts off the white space at both ends, and nothing else. */
  lemma {:induction false} TrimExactly(s: string) returns (i: nat, j: nat)
    ensures i <= j <= |s| && Trim(s) == s[i..j] && Trimmed(Trim(s))
    ensures forall k :: 0 <= k < i || j <= k < |s| ==> s[k] in " \t\n\r\U{0B}\U{0C}"
  {
    TrimLeftExactly(s);
    var left := TrimLeft(s);
    TrimRightExactly(left);
    i := |s| - |left|;
    j := i + |TrimRight(left)|;
    forall k | j <= k < |s| ensures Space(s[k]) { assert s[k] == left[k - i]; }
    TrimTrims(s);
  }

  lemma {:induction false} TrimTwice(s: string)
    ensures Trim(Trim(s)) == Trim(s)
  {
    TrimTrims(s);
    TrimTrims(Trim(s));
  }

  function LowerChar(c: char): char { if 'A' <= c <= 'Z' then (c as int + 32) as char else c }

  function Lower(s: string): (r: string)
    ensures |r| == |s| && forall i :: 0 <= i < |s| ==> r[i] == LowerChar(s[i])
  {
    if s == "" then "" else [LowerChar(s[0])] + Lower(s[1..])
  }

  predicate EqualFold(s: string, t: string) { Lower(s) == Lower(t) }

  // ---------------------------------------------------------------- order

  predicate Less(s: string, t: string) {
    t != "" && (s == "" || s[0] < t[0] || (s[0] == t[0] && Less(s[1..], t[1..])))
  }

  lemma {:induction false} LessIsStrict(s: string)
    ensures !Less(s, s)
  {
    if s != "" { LessIsStrict(s[1..]); }
  }

  lemma {:induction false} LessIsTransitive(s: string, t: string, u: string)
    requires Less(s, t) && Less(t, u)
    ensures Less(s, u)
  {
    if s != "" && s[0] == t[0] && t[0] == u[0] { LessIsTransitive(s[1..], t[1..], u[1..]); }
  }

  lemma {:induction false} LessIsTotal(s: string, t: string)
    ensures Less(s, t) || s == t || Less(t, s)
  {
    if s != "" && t != "" && s[0] == t[0] {
      LessIsTotal(s[1..], t[1..]);
      assert s == [s[0]] + s[1..] && t == [t[0]] + t[1..];
    }
  }

  // ---------------------------------------------------------------- sorted lists

  ghost predicate Ascending(a: seq<string>) { forall i, j :: 0 <= i < j < |a| ==> Less(a[i], a[j]) }

  function Insert(a: seq<string>, s: string): seq<string> {
    if a == [] || Less(s, a[0]) then [s] + a
    else if s == a[0] then a
    else [a[0]] + Insert(a[1..], s)
  }

  lemma {:induction false} InsertAdds(a: seq<string>, s: string)
    ensures forall x :: x in Insert(a, s) <==> x in a || x == s
  {
    if a != [] && !Less(s, a[0]) && s != a[0] {
      InsertAdds(a[1..], s);
      assert a == [a[0]] + a[1..];
    }
  }

  lemma {:induction false} InsertKeepsOrder(a: seq<string>, s: string)
    requires Ascending(a)
    ensures Ascending(Insert(a, s))
  {
    if a == [] {
    } else if Less(s, a[0]) {
      forall i | 0 <= i < |a| ensures Less(s, a[i]) { if i > 0 { LessIsTransitive(s, a[0], a[i]); } }
    } else if s != a[0] {
      InsertKeepsOrder(a[1..], s);
      InsertAdds(a[1..], s);
      LessIsTotal(s, a[0]);
      var r := Insert(a[1..], s);
      forall j | 0 <= j < |r| ensures Less(a[0], r[j]) {
        assert r[j] in r;
        if r[j] != s { var k :| 0 <= k < |a[1..]| && a[1..][k] == r[j]; assert a[k + 1] == r[j]; }
      }
    }
  }

  /** A sorted list without duplicates is determined by its elements, whatever the
      order in which they were met. */
  lemma {:induction false} SortedIsUnique(a: seq<string>, b: seq<string>)
    requires Ascending(a) && Ascending(b) && forall x :: x in a <==> x in b
    ensures a == b
  {
    assert a != [] ==> a[0] in a;
    assert b != [] ==> b[0] in b;
    if a != [] && b != [] {
      Smallest(a, b);
      Smallest(b, a);
      Rest(a);
      Rest(b);
      if a[0] != b[0] { LessIsTransitive(a[0], b[0], a[0]); LessIsStrict(a[0]); }
      SortedIsUnique(a[1..], b[1..]);
      assert a == [a[0]] + a[1..] && b == [b[0]] + b[1..];
    }
  }

  lemma {:induction false} Smallest(a: seq<string>, b: seq<string>)
    requires Ascending(a) && a != [] && b != [] && forall x :: x in a <==> x in b
    ensures a[0] == b[0] || Less(a[0], b[0])
  {
    assert b[0] in b;
    var i :| 0 <= i < |a| && a[i] == b[0];
  }

  lemma {:induction false} Rest(a: seq<string>)
    requires Ascending(a) && a != []
    ensures Ascending(a[1..]) && forall x :: x in a[1..] <==> x in a && x != a[0]
  {
    forall x | x in a[1..] ensures x in a && x != a[0] {
      var i :| 0 <= i < |a| - 1 && a[1..][i] == x;
      assert a[i + 1] == x && Less(a[0], a[i + 1]);
      LessIsStrict(a[0]);
    }
    forall x | x in a && x != a[0] ensures x in a[1..] {
      var i :| 0 <= i < |a| && a[i] == x;
      assert a[1..][i - 1] == x;
    }
  }

  /** The elements of a set in order. */
  method Sort(elements: set<string>) returns (a: seq<string>)
    ensures Ascending(a) && forall x :: x in a <==> x in elements
  {
    a := [];
    var left := elements;
    while left != {}
      invariant left <= elements && Ascending(a)
      invariant forall x :: x in a <==> x in elements && x !in left
      decreases left
    {
      var s :| s in left;
      InsertAdds(a, s);
      InsertKeepsOrder(a, s);
      a := Insert(a, s);
      left := left - {s};
    }
  }
}
