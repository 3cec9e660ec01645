/** Claim keys of day passes: product#order#unit, and which revoke events name which key. */
module DayPassKeys {

  /** The columns hold ids that never contain the separator. */
  predicate HashFree(s: string)
  {
    '#' !in s
  }

  function PassKey(product: string, order: string, pass: string): string
  {
    product + "#" + order + "#" + pass
  }

  /** Does the day-pass row stored under `rowKey` belong to the pass that a revoke event naming
      `plan` (and perhaps `order`) is about? The empty string stands for an absent id. */
  predicate RowMatches(rowKey: string, plan: string, order: string)
  {
    if plan == "" || rowKey == "" then true
    else if rowKey == plan then true
    else if !(plan + "#" <= rowKey) then false
    else order != "" ==> plan + "#" + order + "#" <= rowKey
  }

  /** Up to its first separator a string splits in one way only. */
  lemma SplitAtHash(a: string, x: string, b: string, y: string)
    requires HashFree(a) && HashFree(b)
    requires a + "#" + x == b + "#" + y
    ensures a == b && x == y
  {
    var s := a + "#" + x;
    assert s[|a|] == '#' && s[|b|] == '#';
    assert forall i :: 0 <= i < |a| ==> s[i] == a[i] && s[i] != '#';
    assert forall i :: 0 <= i < |b| ==> s[i] == b[i] && s[i] != '#';
    assert a == s[..|a|] == b;
    assert x == s[|a| + 1..] == y;
  }

  lemma NoHashPrefix(a: string, s: string)
    requires HashFree(s)
    ensures !(a + "#" <= s)
  {
    assert (a + "#")[|a|] == '#';
    assert forall i :: 0 <= i < |s| ==> s[i] != '#';
  }

  lemma PrefixBeforeHash(a: string, b: string, y: string)
    requires HashFree(a) && HashFree(b)
    ensures a + "#" <= b + "#" + y <==> a == b
  {
    var s := b + "#" + y;
    if a + "#" <= s {
      assert s == a + "#" + s[|a| + 1..];
      SplitAtHash(a, s[|a| + 1..], b, y);
    }
  }

  lemma {:induction false} PassKeyInjective(p: string, o: string, u: string, p': string, o': string, u': string)
    requires HashFree(p) && HashFree(o) && HashFree(p') && HashFree(o')
    ensures PassKey(p, o, u) == PassKey(p', o', u') <==> p == p' && o == o' && u == u'
  {
    if PassKey(p, o, u) == PassKey(p', o', u') {
      assert PassKey(p, o, u) == p + "#" + (o + "#" + u);
      assert PassKey(p', o', u') == p' + "#" + (o' + "#" + u');
      SplitAtHash(p, o + "#" + u, p', o' + "#" + u');
      SplitAtHash(o, u, o', u');
    }
  }

  /** The expiry sweep names a stored key and no order: it reaches that pass and no other. */
  lemma ExpiryNamesOnePass(rowKey: string, p: string, o: string, u: string, p': string, o': string, u': string)
    requires HashFree(p) && HashFree(o) && HashFree(u) && HashFree(p') && HashFree(o') && HashFree(u')
    requires rowKey == PassKey(p', o', u')
    ensures RowMatches(rowKey, PassKey(p, o, u), "") <==> p == p' && o == o' && u == u'
  {
    PassKeyInjective(p, o, u, p', o', u');
    NoHashPrefix(u, u');
    var key := PassKey(p, o, u);
    if key + "#" <= rowKey {
      var rest := rowKey[|key| + 1..];
      assert u + "#" <= u + "#" + rest;
      assert rowKey == key + "#" + rest;
      assert rowKey == p + "#" + (o + "#" + (u + "#" + rest));
      assert rowKey == p' + "#" + (o' + "#" + u');
      SplitAtHash(p, o + "#" + (u + "#" + rest), p', o' + "#" + u');
      SplitAtHash(o, u + "#" + rest, o', u');
    }
  }

  /** A cancellation naming product and order reaches exactly the passes of that order; without
      an order it reaches every pass of the product. */
  lemma CancelNamesOneOrder(p: string, o: string, p': string, o': string, u': string)
    requires HashFree(p) && HashFree(o) && HashFree(p') && HashFree(o') && p != ""
    ensures RowMatches(PassKey(p', o', u'), p, o) <==> p == p' && (o == "" || o == o')
  {
    var rowKey := PassKey(p', o', u');
    assert rowKey == p' + "#" + (o' + "#" + u');
    PrefixBeforeHash(p, p', o' + "#" + u');
    assert rowKey[|p'|] == '#' && rowKey != p;
    if p == p' && o != "" {
      assert rowKey == p + "#" + (o' + "#" + u');
      if p + "#" + o + "#" <= rowKey {
        assert o + "#" <= o' + "#" + u' by {
          var n := |p| + 1;
          assert rowKey[n..] == o' + "#" + u';
          assert rowKey[n..n + |o| + 1] == o + "#";
        }
      }
      if o == o' {
        assert rowKey == p + "#" + o + "#" + u';
      }
      PrefixBeforeHash(o, o', u');
    }
  }

  /** A row still stored under a bare product id is reached by that product's events only, and by
      no expiry of an order-bearing pass. */
  lemma BareKeyMatches(bare: string, p: string, o: string, pass: string)
    requires HashFree(bare) && bare != "" && HashFree(p) && p != ""
    ensures RowMatches(bare, p, o) <==> bare == p
    ensures !RowMatches(bare, PassKey(p, o, pass), "")
  {
    assert PassKey(p, o, pass)[|p|] == '#';
    var key := PassKey(p, o, pass);
    NoHashPrefix(p, bare);
    NoHashPrefix(key, bare);
  }
}
