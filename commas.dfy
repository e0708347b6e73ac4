/**
 * `addCommas`: thousands separators for the decimal string of an amount.
 * Strings of up to three characters are returned as they are; a longer one
 * is split after its first `len % 3` characters (three when that is zero)
 * and the rest is formatted the same way.
 */
module Commas {

  function AddCommas(s: string): (r: string)
    ensures |s| <= 3 ==> r == s
    ensures |s| > 0 ==> |r| == |s| + (|s| - 1) / 3
    decreases |s|
  {
    if |s| <= 3 then s
    else
      var rem := |s| % 3;
      if rem > 0 then s[..rem] + "," + AddCommas(s[rem..])
      else s[..3] + "," + AddCommas(s[3..])
  }

  /** The characters of `s` other than commas, in order. */
  function RemoveCommas(s: string): (r: string)
    ensures |r| <= |s|
  {
    if s == [] then []
    else (if s[0] == ',' then [] else [s[0]]) + RemoveCommas(s[1..])
  }

  lemma {:induction false} RemoveCommasAppend(a: string, b: string)
    ensures RemoveCommas(a + b) == RemoveCommas(a) + RemoveCommas(b)
    decreases |a|
  {
    if a != [] {
      var head := if a[0] == ',' then [] else [a[0]];
      assert (a + b)[0] == a[0];
      assert (a + b)[1..] == a[1..] + b;
      RemoveCommasAppend(a[1..], b);
      assert RemoveCommas(a + b) == head + (RemoveCommas(a[1..]) + RemoveCommas(b));
      assert RemoveCommas(a) == head + RemoveCommas(a[1..]);
    } else {
      assert a + b == b;
    }
  }

  lemma {:induction false} RemoveCommasOfPlain(s: string)
    requires ',' !in s
    ensures RemoveCommas(s) == s
    decreases |s|
  {
    if s != [] {
      RemoveCommasOfPlain(s[1..]);
    }
  }

  /** Both parts of a comma-free string are comma-free. */
  lemma PlainSlices(s: string, k: nat)
    requires ',' !in s && k <= |s|
    ensures ',' !in s[..k] && ',' !in s[k..]
  {
    assert forall i :: 0 <= i < k ==> s[..k][i] == s[i];
    assert forall i :: 0 <= i < |s| - k ==> s[k..][i] == s[k + i];
  }

  /** The split `addCommas` makes of a string longer than three characters. */
  lemma AddCommasSplit(s: string)
    requires |s| > 3
    ensures var k := if |s| % 3 > 0 then |s| % 3 else 3;
            AddCommas(s) == s[..k] + "," + AddCommas(s[k..])
  {
  }

  /** Dropping the commas of a comma-free group, a comma and a rest keeps the group. */
  lemma RemoveJoin(p: string, rest: string)
    requires ',' !in p
    ensures RemoveCommas(p + "," + rest) == p + RemoveCommas(rest)
  {
    var sep: string := ",";
    assert sep[1..] == [];
    assert RemoveCommas(sep) == [];
    RemoveCommasAppend(p, sep);
    RemoveCommasOfPlain(p);
    assert RemoveCommas(p + sep) == p;
    RemoveCommasAppend(p + sep, rest);
  }

  /** Formatting adds only separators: dropping the commas gives the digits back. */
  lemma {:induction false} CommasRoundTrip(s: string)
    requires ',' !in s
    ensures RemoveCommas(AddCommas(s)) == s
    decreases |s|
  {
    if |s| <= 3 {
      RemoveCommasOfPlain(s);
    } else {
      var k := if |s| % 3 > 0 then |s| % 3 else 3;
      AddCommasSplit(s);
      PlainSlices(s, k);
      CommasRoundTrip(s[k..]);
      RemoveJoin(s[..k], AddCommas(s[k..]));
      assert s[..k] + s[k..] == s;
    }
  }

  /** After the first group the length left is a positive multiple of three, and
      a formatted multiple of three is one short of a multiple of four. */
  lemma GroupLengths(n: nat)
    requires n > 3
    ensures var k := if n % 3 > 0 then n % 3 else 3;
            && 1 <= k <= 3
            && (n - k) % 3 == 0 && n - k >= 3
            && (n - k + (n - k - 1) / 3) % 4 == 3
  {
    var k := if n % 3 > 0 then n % 3 else 3;
    var q := (n - k) / 3;
    assert n - k == 3 * q;
    assert (n - k - 1) / 3 == q - 1;
  }

  /** A comma stands exactly at each non-initial position with a multiple of four
      characters from there to the end. */
  ghost predicate CommasAtGroups(r: string)
  {
    forall i :: 0 <= i < |r| ==> (r[i] == ',' <==> i > 0 && (|r| - i) % 4 == 0)
  }

  /** A comma-free string of up to three characters has no comma to place. */
  lemma ShortIsGrouped(s: string)
    requires ',' !in s && |s| <= 3
    ensures CommasAtGroups(s)
  {
    forall i | 0 <= i < |s|
      ensures s[i] == ',' <==> i > 0 && (|s| - i) % 4 == 0
    {
      assert s[i] in s;
    }
  }

  /** A comma-free first group of one to three characters, a comma, and a rest
      already grouped by threes, is grouped by threes. */
  lemma JoinGroups(p: string, rest: string)
    requires ',' !in p && 1 <= |p| <= 3
    requires |rest| % 4 == 3 && CommasAtGroups(rest)
    ensures CommasAtGroups(p + "," + rest)
  {
    var r := p + "," + rest;
    forall i | 0 <= i < |r|
      ensures r[i] == ',' <==> i > 0 && (|r| - i) % 4 == 0
    {
      if i < |p| {
        assert r[i] == p[i];
      } else if i > |p| {
        assert r[i] == rest[i - |p| - 1];
      }
    }
  }

  /**
   * For a string without commas, a comma stands exactly at the positions that
   * have a multiple of four characters from there to the end, except the first
   * position: the first group has one to three characters and every later group
   * exactly three.
   */
  lemma {:induction false} CommasEveryThree(s: string)
    requires ',' !in s
    ensures CommasAtGroups(AddCommas(s))
    decreases |s|
  {
    if |s| > 3 {
      var k := if |s| % 3 > 0 then |s| % 3 else 3;
      AddCommasSplit(s);
      PlainSlices(s, k);
      CommasEveryThree(s[k..]);
      GroupLengths(|s|);
      JoinGroups(s[..k], AddCommas(s[k..]));
    } else {
      ShortIsGrouped(s);
    }
  }
}
