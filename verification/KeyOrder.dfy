/** The order in which an ordered map visits its keys: lexicographic by character. */
module KeyOrder {

  predicate Below(a: string, b: string) {
    if b == "" then false
    else if a == "" then true
    else a[0] < b[0] || (a[0] == b[0] && Below(a[1..], b[1..]))
  }

  lemma {:induction false} BelowTransitive(a: string, b: string, c: string)
    requires Below(a, b) && Below(b, c)
    ensures Below(a, c)
  {
    if a != "" && a[0] == b[0] == c[0] {
      BelowTransitive(a[1..], b[1..], c[1..]);
    }
  }

  lemma {:induction false} BelowTotal(a: string, b: string)
    ensures Below(a, b) || a == b || Below(b, a)
    ensures !(Below(a, b) && Below(b, a)) && !Below(a, a)
  {
    if a != "" {
      BelowTotal(a[1..], a[1..]);
    }
    if a != "" && b != "" && a[0] == b[0] {
      BelowTotal(a[1..], b[1..]);
      if a[1..] == b[1..] {
        assert a == [a[0]] + a[1..] && b == [b[0]] + b[1..];
      }
    }
  }

  ghost predicate Least(key: string, keys: set<string>) {
    key in keys && forall later :: later in keys && later != key ==> Below(key, later)
  }

  lemma LeastOfMore(key: string, least: string, others: set<string>)
    requires key !in others && Least(least, others)
    ensures Least(if Below(key, least) then key else least, {key} + others)
  {
    hide Below;
    BelowTotal(key, least);
    forall later | later in others && later != least && Below(key, least) ensures Below(key, later) {
      BelowTransitive(key, least, later);
    }
  }

  lemma {:induction false} LeastExists(keys: set<string>)
    requires keys != {}
    ensures exists key :: Least(key, keys)
  {
    hide Below;
    var key :| key in keys;
    var others := keys - {key};
    assert keys == {key} + others;
    if others == {} {
      assert Least(key, keys);
    } else {
      LeastExists(others);
      var least :| Least(least, others);
      LeastOfMore(key, least, others);
    }
  }

  /** Of two texts the first is a proper beginning of the second, or has the smaller character where they part. */
  ghost predicate Precedes(a: string, b: string) {
    || (|a| < |b| && a == b[..|a|])
    || (exists k :: 0 <= k < |a| && k < |b| && a[..k] == b[..k] && a[k] < b[k])
  }

  lemma {:induction false} BelowExactly(a: string, b: string)
    ensures Below(a, b) <==> Precedes(a, b)
  {
    if a != "" && b != "" && a[0] == b[0] {
      BelowExactly(a[1..], b[1..]);
      PrecedesUncons(a, b);
    } else if a != "" && b != "" {
      assert a[0] < b[0] ==> a[..0] == b[..0];
      forall k | 0 < k < |a| && k < |b| ensures a[..k] != b[..k] {
        assert a[..k][0] == a[0] && b[..k][0] == b[0];
      }
      assert |a| < |b| && a == b[..|a|] ==> a[0] == b[..|a|][0];
    }
  }

  lemma PrecedesUncons(a: string, b: string)
    requires a != "" && b != "" && a[0] == b[0]
    ensures Precedes(a, b) <==> Precedes(a[1..], b[1..])
  {
    var s, t := a[1..], b[1..];
    assert a == [a[0]] + s && b == [b[0]] + t;
    assert |a| < |b| && a == b[..|a|] <==> |s| < |t| && s == t[..|s|] by {
      if |a| < |b| {
        assert b[..|a|] == [b[0]] + t[..|s|];
      }
    }
    forall k | 0 <= k < |s| && k < |t| ensures s[..k] == t[..k] <==> a[..k + 1] == b[..k + 1] {
      assert a[..k + 1] == [a[0]] + s[..k] && b[..k + 1] == [b[0]] + t[..k];
      assert s[..k] == a[..k + 1][1..] && t[..k] == b[..k + 1][1..];
    }
    if k :| 0 <= k < |s| && k < |t| && s[..k] == t[..k] && s[k] < t[k] {
      assert a[k + 1] < b[k + 1] && a[..k + 1] == b[..k + 1];
    }
    if k :| 0 <= k < |a| && k < |b| && a[..k] == b[..k] && a[k] < b[k] {
      assert k > 0;
      assert s[k - 1] < t[k - 1] && s[..k - 1] == t[..k - 1];
    }
  }

  ghost predicate Ascending(keys: seq<string>) {
    forall i, j :: 0 <= i < j < |keys| ==> Precedes(keys[i], keys[j])
  }

  lemma AscendingAppend(keys: seq<string>, key: string)
    requires Ascending(keys) && forall earlier :: earlier in keys ==> Below(earlier, key)
    ensures Ascending(keys + [key])
  {
    forall i | 0 <= i < |keys| ensures Precedes(keys[i], key) {
      assert keys[i] in keys;
      BelowExactly(keys[i], key);
    }
  }

  /** A set of keys has one ascending order. */
  lemma {:induction false} AscendingOnce(keys: seq<string>, keys': seq<string>)
    requires Ascending(keys) && Ascending(keys') && forall key :: key in keys <==> key in keys'
    ensures keys == keys'
  {
    if keys == [] {
      assert forall i :: 0 <= i < |keys'| ==> keys'[i] in keys';
    } else {
      assert keys[0] in keys' && keys' != [] && keys'[0] in keys;
      BelowTotal(keys[0], keys'[0]);
      FirstPrecedes(keys);
      FirstPrecedes(keys');
      forall key ensures key in keys[1..] <==> key in keys'[1..] {
        BelowTotal(key, key);
        assert key in keys <==> key == keys[0] || key in keys[1..];
        assert key in keys' <==> key == keys'[0] || key in keys'[1..];
      }
      AscendingOnce(keys[1..], keys'[1..]);
      assert keys == [keys[0]] + keys[1..] && keys' == [keys'[0]] + keys'[1..];
    }
  }

  lemma FirstPrecedes(keys: seq<string>)
    requires keys != [] && Ascending(keys)
    ensures forall key :: key in keys[1..] ==> Below(keys[0], key)
    ensures Ascending(keys[1..])
  {
    forall i | 1 <= i < |keys| ensures Below(keys[0], keys[i]) {
      BelowExactly(keys[0], keys[i]);
    }
  }
}
