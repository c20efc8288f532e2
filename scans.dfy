/**
 * The full-keyspace range scan (`GetStateByRange("", "")`) the two listing
 * handlers run: every (key, record) pair of the world state, once each, in
 * ascending key order, and the filter ListRepresentations applies to it.
 */
module Scans {
  import opened Records
  import T = Transitions

  /** One pair a range scan yields: the key and the record stored under it. */
  datatype KV = KV(key: string, value: Record)

  /**
   * The order in which the state database returns a range: lexicographic, a
   * proper prefix first. The database compares the keys' UTF-8 bytes, and
   * UTF-8 byte order agrees with code point order.
   */
  predicate KeyLess(a: string, b: string)
    decreases |a|
  {
    if a == [] then b != []
    else if b == [] then false
    else a[0] < b[0] || (a[0] == b[0] && KeyLess(a[1..], b[1..]))
  }

  lemma {:induction false} KeyLessIrreflexive(a: string)
    ensures !KeyLess(a, a)
    decreases |a|
  {
    if a != [] {
      KeyLessIrreflexive(a[1..]);
    }
  }

  lemma {:induction false} KeyLessTransitive(a: string, b: string, c: string)
    requires KeyLess(a, b) && KeyLess(b, c)
    ensures KeyLess(a, c)
    decreases |a|
  {
    if a != [] && a[0] == b[0] && b[0] == c[0] {
      KeyLessTransitive(a[1..], b[1..], c[1..]);
    }
  }

  lemma {:induction false} KeyLessTotal(a: string, b: string)
    requires a != b
    ensures KeyLess(a, b) || KeyLess(b, a)
    decreases |a|
  {
    if a != [] && b != [] && a[0] == b[0] {
      assert a == [a[0]] + a[1..] && b == [b[0]] + b[1..];
      KeyLessTotal(a[1..], b[1..]);
    }
  }

  /** The keys of scan are strictly ascending. */
  ghost predicate Ascending(scan: seq<KV>)
  {
    forall i, j :: 0 <= i < j < |scan| ==> KeyLess(scan[i].key, scan[j].key)
  }

  /** Each pair of scan is stored in s. */
  ghost predicate Stored(scan: seq<KV>, s: T.WorldState)
  {
    forall i :: 0 <= i < |scan| ==> scan[i].key in s && s[scan[i].key] == scan[i].value
  }

  /** Every key of s occurs in scan. */
  ghost predicate Covers(scan: seq<KV>, s: T.WorldState)
  {
    forall k :: k in s ==> exists i :: 0 <= i < |scan| && scan[i].key == k
  }

  /**
   * scan is what a full range scan of s yields: keys strictly ascending, each
   * pair as stored in s, and every key of s present.
   */
  ghost predicate IsScan(scan: seq<KV>, s: T.WorldState)
  {
    Ascending(scan) && Stored(scan, s) && Covers(scan, s)
  }

  /** The first pair of a scan holds the least key, and what follows is a scan of the rest. */
  lemma ScanTail(scan: seq<KV>, s: T.WorldState)
    requires IsScan(scan, s) && scan != []
    ensures scan[0].key in s
    ensures IsScan(scan[1..], s - {scan[0].key})
  {
    var k := scan[0].key;
    var tail, rest := scan[1..], s - {k};
    forall i | 0 <= i < |tail| ensures tail[i].key in rest && rest[tail[i].key] == tail[i].value {
      assert tail[i] == scan[i + 1];
      assert KeyLess(k, tail[i].key);
      KeyLessIrreflexive(k);
    }
    forall j | j in rest ensures exists i :: 0 <= i < |tail| && tail[i].key == j {
      var i :| 0 <= i < |scan| && scan[i].key == j;
      assert tail[i - 1] == scan[i];
    }
  }

  /** Every key of s is the scan's first key or comes after it. */
  lemma ScanStartsAtLeast(scan: seq<KV>, s: T.WorldState, k: string)
    requires IsScan(scan, s) && k in s
    ensures scan != [] && (k == scan[0].key || KeyLess(scan[0].key, k))
  {
    var i :| 0 <= i < |scan| && scan[i].key == k;
  }

  /** A scan yields exactly one pair per key. */
  lemma {:induction false} ScanLength(scan: seq<KV>, s: T.WorldState)
    requires IsScan(scan, s)
    ensures |scan| == |s|
    decreases |scan|
  {
    if scan == [] {
      forall k | k in s ensures false {
        ScanStartsAtLeast(scan, s, k);
      }
      assert s == map[];
    } else {
      var k := scan[0].key;
      ScanTail(scan, s);
      ScanLength(scan[1..], s - {k});
      assert s.Keys == (s - {k}).Keys + {k};
    }
  }

  /** Two scans of one state start with the same pair: the one at the least key. */
  lemma ScanHeadsEqual(a: seq<KV>, b: seq<KV>, s: T.WorldState)
    requires IsScan(a, s) && IsScan(b, s) && a != []
    ensures b != [] && a[0] == b[0]
  {
    var ka := a[0].key;
    assert ka in s;
    ScanStartsAtLeast(b, s, ka);
    var kb := b[0].key;
    ScanStartsAtLeast(a, s, kb);
    if ka != kb {
      KeyLessTransitive(ka, kb, ka);
      KeyLessIrreflexive(ka);
    }
  }

  /** The scan is determined by the world state: two scans of one state are equal. */
  lemma {:induction false} ScanUnique(a: seq<KV>, b: seq<KV>, s: T.WorldState)
    requires IsScan(a, s) && IsScan(b, s)
    ensures a == b
    decreases |a|
  {
    if a == [] {
      ScanLength(a, s);
      ScanLength(b, s);
    } else {
      ScanHeadsEqual(a, b, s);
      ScanTail(a, s);
      ScanTail(b, s);
      ScanUnique(a[1..], b[1..], s - {a[0].key});
      assert a == [a[0]] + a[1..] && b == [b[0]] + b[1..];
    }
  }

  /** Every non-empty finite set of keys has a least key. */
  lemma {:induction false} LeastKey(keys: set<string>) returns (m: string)
    requires keys != {}
    ensures m in keys
    ensures forall k :: k in keys && k != m ==> KeyLess(m, k)
    decreases |keys|
  {
    var x :| x in keys;
    if keys == {x} {
      m := x;
    } else {
      var m' := LeastKey(keys - {x});
      if KeyLess(x, m') {
        m := x;
        forall k | k in keys && k != m ensures KeyLess(m, k) {
          if k != m' {
            KeyLessTransitive(x, m', k);
          }
        }
      } else {
        m := m';
        KeyLessTotal(x, m');
      }
    }
  }

  lemma ConsAscending(head: KV, tail: seq<KV>)
    requires Ascending(tail)
    requires forall i :: 0 <= i < |tail| ==> KeyLess(head.key, tail[i].key)
    ensures Ascending([head] + tail)
  {
    var scan := [head] + tail;
    forall i, j | 0 <= i < j < |scan| ensures KeyLess(scan[i].key, scan[j].key) {
      assert scan[j] == tail[j - 1];
      if i > 0 {
        assert scan[i] == tail[i - 1];
      }
    }
  }

  lemma ConsStored(s: T.WorldState, m: string, tail: seq<KV>)
    requires m in s
    requires Stored(tail, s - {m})
    ensures Stored([KV(m, s[m])] + tail, s)
  {
    var scan := [KV(m, s[m])] + tail;
    forall i | 0 < i < |scan| ensures scan[i].key in s && s[scan[i].key] == scan[i].value {
      assert scan[i] == tail[i - 1];
    }
  }

  lemma ConsCovers(s: T.WorldState, m: string, tail: seq<KV>)
    requires m in s
    requires Covers(tail, s - {m})
    ensures Covers([KV(m, s[m])] + tail, s)
  {
    var scan := [KV(m, s[m])] + tail;
    forall k | k in s ensures exists i :: 0 <= i < |scan| && scan[i].key == k {
      if k == m {
        assert scan[0].key == k;
      } else {
        assert k in s - {m};
        var i :| 0 <= i < |tail| && tail[i].key == k;
        assert scan[i + 1].key == k;
      }
    }
  }

  /** A scan of s starts with the least key of s, followed by a scan of the remaining keys. */
  lemma ScanCons(s: T.WorldState, m: string, tail: seq<KV>)
    requires m in s
    requires forall k :: k in s && k != m ==> KeyLess(m, k)
    requires IsScan(tail, s - {m})
    ensures IsScan([KV(m, s[m])] + tail, s)
  {
    forall i | 0 <= i < |tail| ensures KeyLess(m, tail[i].key) {
      assert tail[i].key in s - {m};
    }
    ConsAscending(KV(m, s[m]), tail);
    ConsStored(s, m, tail);
    ConsCovers(s, m, tail);
  }

  /** Every world state has a scan, so the listing handlers can always run. */
  lemma {:induction false} ScanExists(s: T.WorldState)
    ensures exists scan :: IsScan(scan, s)
    decreases |s|
  {
    if s == map[] {
      assert IsScan([], s);
    } else {
      var m := LeastKey(s.Keys);
      var rest := s - {m};
      assert s.Keys == rest.Keys + {m};
      ScanExists(rest);
      var tail: seq<KV> :| IsScan(tail, rest);
      ScanCons(s, m, tail);
    }
  }

  /** The representation a is one of the username's: they are its client or its agent. */
  predicate Involves(a: Representation, username: string)
  {
    a.clientUsername == username || a.agentUsername == username
  }

  /**
   * The scanned records, each decoded as a Representation, that involve
   * username, in scan order.
   */
  function Matching(scan: seq<KV>, username: string): (r: seq<Representation>)
    ensures |r| <= |scan|
    ensures forall a :: a in r ==> Involves(a, username)
    decreases |scan|
  {
    if scan == [] then []
    else
      var rest := Matching(scan[..|scan| - 1], username);
      var a := AsRepresentation(scan[|scan| - 1].value);
      if Involves(a, username) then rest + [a] else rest
  }

  /** The filter keeps scan order: filtering a concatenation concatenates the filtered parts. */
  lemma {:induction false} MatchingConcat(a: seq<KV>, b: seq<KV>, username: string)
    ensures Matching(a + b, username) == Matching(a, username) + Matching(b, username)
    decreases |b|
  {
    if b == [] {
      assert a + b == a;
    } else {
      var b' := b[..|b| - 1];
      assert (a + b)[..|a + b| - 1] == a + b';
      assert (a + b)[|a + b| - 1] == b[|b| - 1];
      MatchingConcat(a, b', username);
    }
  }

  /** Every scanned record that involves username is kept. */
  lemma {:induction false} MatchingComplete(scan: seq<KV>, username: string, i: int)
    requires 0 <= i < |scan|
    requires Involves(AsRepresentation(scan[i].value), username)
    ensures AsRepresentation(scan[i].value) in Matching(scan, username)
    decreases |scan|
  {
    if i < |scan| - 1 {
      var prefix := scan[..|scan| - 1];
      assert prefix[i] == scan[i];
      MatchingComplete(prefix, username, i);
    }
  }

  /** Everything kept is a scanned record decoded as a Representation. */
  lemma {:induction false} MatchingSound(scan: seq<KV>, username: string, a: Representation)
    requires a in Matching(scan, username)
    ensures exists i :: 0 <= i < |scan| && AsRepresentation(scan[i].value) == a
    decreases |scan|
  {
    var prefix := scan[..|scan| - 1];
    if a != AsRepresentation(scan[|scan| - 1].value) {
      MatchingSound(prefix, username, a);
      var i :| 0 <= i < |prefix| && AsRepresentation(prefix[i].value) == a;
      assert scan[i] == prefix[i];
    }
  }

  /**
   * Because both kinds share one keyspace, a property record decodes as a
   * representation with empty usernames: it is listed exactly for the empty
   * username.
   */
  lemma PropertyListedOnlyForEmptyUsername(scan: seq<KV>, username: string, i: int)
    requires 0 <= i < |scan| && scan[i].value.Prop?
    ensures AsRepresentation(scan[i].value) in Matching(scan, username) <==> username == ""
  {
    if username == "" {
      MatchingComplete(scan, username, i);
    }
  }
}
