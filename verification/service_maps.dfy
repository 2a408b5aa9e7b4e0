/** `servicesData` as a JavaScript object: an association list whose order
    is the insertion order of its keys (ECMAScript's order for keys that
    are not array indices such as "5"), with the two writes Step 5 performs
    on it, `{...m, [k]: v}` and `delete copy[k]`. */
module ServiceMaps {
  import opened Values

  function Keys(m: ServiceMap): (ks: seq<string>)
    ensures |ks| == |m|
    ensures forall i :: 0 <= i < |m| ==> ks[i] == m[i].0
  {
    seq(|m|, i requires 0 <= i < |m| => m[i].0)
  }

  /** No key occurs twice, as in every JavaScript object. */
  predicate UniqueKeys(m: ServiceMap) {
    forall i, j :: 0 <= i < j < |m| ==> m[i].0 != m[j].0
  }

  /** Position of the first entry under `k`, or -1. */
  function IndexOf(m: ServiceMap, k: string): (i: int)
    ensures -1 <= i < |m|
    ensures 0 <= i ==> m[i].0 == k && forall j :: 0 <= j < i ==> m[j].0 != k
    ensures i == -1 ==> forall j :: 0 <= j < |m| ==> m[j].0 != k
    decreases |m|
  {
    if |m| == 0 then -1
    else if m[0].0 == k then 0
    else var t := IndexOf(m[1..], k); if t == -1 then -1 else t + 1
  }

  predicate HasKey(m: ServiceMap, k: string) {
    k in Keys(m)
  }

  /** `m[k]`, `None` standing for `undefined`. */
  function Get(m: ServiceMap, k: string): (r: Option<ServiceEntry>)
    ensures r.None? <==> !HasKey(m, k)
    ensures r.Some? ==> (k, r.value) in m
  {
    var i := IndexOf(m, k);
    if i == -1 then None else Some(m[i].1)
  }

  /** `{...m, [k]: v}`: an existing key keeps its position and takes the new
      value; a new key goes last. */
  function Put(m: ServiceMap, k: string, v: ServiceEntry): (r: ServiceMap)
    ensures Get(r, k) == Some(v)
    ensures forall k' :: k' != k ==> Get(r, k') == Get(m, k')
    ensures HasKey(m, k) ==> Keys(r) == Keys(m)
    ensures !HasKey(m, k) ==> Keys(r) == Keys(m) + [k]
  {
    var i := IndexOf(m, k);
    if i == -1 then
      AppendLookups(m, (k, v));
      m + [(k, v)]
    else
      ReplaceLookups(m, i, (k, v));
      m[i := (k, v)]
  }

  /** Overwriting an entry in place keeps every key's first position. */
  lemma ReplaceLookups(m: ServiceMap, i: int, e: (string, ServiceEntry))
    requires 0 <= i < |m| && m[i].0 == e.0
    ensures forall k :: IndexOf(m[i := e], k) == IndexOf(m, k)
  {
    forall k ensures IndexOf(m[i := e], k) == IndexOf(m, k) {
      var a, b := IndexOf(m[i := e], k), IndexOf(m, k);
      assert forall j :: 0 <= j < |m| ==> m[i := e][j].0 == m[j].0;
    }
  }

  /** Appending an entry under a new key leaves the old keys' positions. */
  lemma AppendLookups(m: ServiceMap, e: (string, ServiceEntry))
    requires IndexOf(m, e.0) == -1
    ensures IndexOf(m + [e], e.0) == |m|
    ensures forall k :: k != e.0 ==> IndexOf(m + [e], k) == IndexOf(m, k)
  {
    var r := m + [e];
    assert forall j :: 0 <= j < |m| ==> r[j] == m[j];
    assert r[|m|] == e;
    forall k | k != e.0 ensures IndexOf(r, k) == IndexOf(m, k) {
      var a, b := IndexOf(r, k), IndexOf(m, k);
      if b == -1 {
        assert a == -1;
      } else {
        assert r[b].0 == k;
      }
    }
  }

  /** The copy `{...m}` with `k` deleted: the entries under other keys stay,
      in their order. */
  function Delete(m: ServiceMap, k: string): (r: ServiceMap)
    ensures |r| <= |m|
    decreases |m|
  {
    if |m| == 0 then []
    else if m[0].0 == k then Delete(m[1..], k)
    else [m[0]] + Delete(m[1..], k)
  }

  /** Exactly the entries under other keys are kept. */
  lemma {:induction false} DeleteMembers(m: ServiceMap, k: string)
    ensures forall e :: e in Delete(m, k) <==> e in m && e.0 != k
    decreases |m|
  {
    if |m| > 0 {
      DeleteMembers(m[1..], k);
      assert m == [m[0]] + m[1..];
    }
  }

  /** Deleting `k` removes the key and leaves every other lookup as it was. */
  lemma {:induction false} DeleteLookups(m: ServiceMap, k: string)
    ensures !HasKey(Delete(m, k), k)
    ensures forall k' :: k' != k ==> Get(Delete(m, k), k') == Get(m, k')
    decreases |m|
  {
    var r := Delete(m, k);
    if |m| > 0 {
      DeleteLookups(m[1..], k);
      forall k' | k' != k ensures Get(r, k') == Get(m, k') {
        if m[0].0 != k {
          assert r == [m[0]] + Delete(m[1..], k);
          if m[0].0 != k' {
            GetCons(m[0], Delete(m[1..], k), k');
            GetCons(m[0], m[1..], k');
          }
        } else {
          GetCons(m[0], m[1..], k');
        }
      }
    }
  }

  /** Deleting a key the object does not have leaves it as it is. */
  lemma {:induction false} DeleteAbsent(m: ServiceMap, k: string)
    requires !HasKey(m, k)
    ensures Delete(m, k) == m
    decreases |m|
  {
    if |m| > 0 {
      assert m[0].0 == Keys(m)[0];
      assert !HasKey(m[1..], k) by {
        forall j | 0 <= j < |m[1..]| ensures Keys(m[1..])[j] != k {
          assert Keys(m[1..])[j] == Keys(m)[j + 1];
        }
      }
      DeleteAbsent(m[1..], k);
    }
  }

  /** Adding a new key and deleting it again gives back the object. */
  lemma PutThenDelete(m: ServiceMap, k: string, v: ServiceEntry)
    requires !HasKey(m, k)
    ensures Delete(Put(m, k, v), k) == m
  {
    DeleteAppend(m, (k, v));
    DeleteAbsent(m, k);
    assert Delete([(k, v)], k) == [];
    assert m + [] == m;
  }

  lemma {:induction false} DeleteAppend(m: ServiceMap, e: (string, ServiceEntry))
    ensures Delete(m + [e], e.0) == Delete(m, e.0) + Delete([e], e.0)
    decreases |m|
  {
    if |m| > 0 {
      assert (m + [e])[1..] == m[1..] + [e];
      DeleteAppend(m[1..], e);
    } else {
      assert m + [e] == [e];
    }
  }

  /** Looking up past a head entry under another key. */
  lemma GetCons(e: (string, ServiceEntry), t: ServiceMap, k: string)
    requires e.0 != k
    ensures Get([e] + t, k) == Get(t, k)
  {
    var s := [e] + t;
    assert s[0] == e && s[1..] == t;
    assert IndexOf(s, k) == (var j := IndexOf(t, k); if j == -1 then -1 else j + 1);
  }

  lemma {:induction false} PutKeepsKeysUnique(m: ServiceMap, k: string, v: ServiceEntry)
    requires UniqueKeys(m)
    ensures UniqueKeys(Put(m, k, v))
  {
    var r := Put(m, k, v);
    var ks := Keys(r);
    forall i, j | 0 <= i < j < |r| ensures r[i].0 != r[j].0 {
      assert r[i].0 == ks[i] && r[j].0 == ks[j];
      if j < |m| {
        assert ks[i] == Keys(m)[i] && ks[j] == Keys(m)[j];
      } else {
        assert ks[j] == k && !HasKey(m, k);
        assert ks[i] == Keys(m)[i];
      }
    }
  }

  lemma {:induction false} DeleteKeepsKeysUnique(m: ServiceMap, k: string)
    requires UniqueKeys(m)
    ensures UniqueKeys(Delete(m, k))
    decreases |m|
  {
    if |m| > 0 {
      assert UniqueKeys(m[1..]) by {
        forall i, j | 0 <= i < j < |m[1..]| ensures m[1..][i].0 != m[1..][j].0 {
          assert m[1..][i] == m[i + 1] && m[1..][j] == m[j + 1];
        }
      }
      DeleteKeepsKeysUnique(m[1..], k);
      DeleteMembers(m[1..], k);
      if m[0].0 != k {
        var tail := Delete(m[1..], k);
        var r := [m[0]] + tail;
        assert r == Delete(m, k);
        forall j | 0 <= j < |tail| ensures tail[j].0 != m[0].0 {
          assert tail[j] in tail;
          assert tail[j] in m[1..];
          var j' :| 0 <= j' < |m[1..]| && m[1..][j'] == tail[j];
          assert m[j' + 1] == tail[j];
        }
        forall a, b | 0 <= a < b < |r| ensures r[a].0 != r[b].0 {
          assert r[b] == tail[b - 1];
          if a > 0 {
            assert r[a] == tail[a - 1];
          }
        }
      }
    }
  }
}
