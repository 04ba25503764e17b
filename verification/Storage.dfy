/**
  The object store and the paged sweep over it. A listing returns a page of the
  matching keys in lexicographic order together with a token, the last key of the
  page, from which the next listing continues.
 */
module Storage {
  import opened Models
  import opened Keys
  import opened Protocol
  import opened Tracing

  /** The strict lexicographic order in which keys are listed. */
  predicate Before(a: Key, b: Key) {
    b != "" && (a == "" || a[0] < b[0] || (a[0] == b[0] && Before(a[1..], b[1..])))
  }

  lemma {:induction false} BeforeTransitive(a: Key, b: Key, c: Key)
    requires Before(a, b) && Before(b, c)
    ensures Before(a, c)
  {
    if a != "" && a[0] == b[0] && b[0] == c[0] {
      BeforeTransitive(a[1..], b[1..], c[1..]);
    }
  }

  lemma {:induction false} BeforeTotal(a: Key, b: Key)
    ensures Before(a, b) || a == b || Before(b, a)
  {
    if a != "" && b != "" && a[0] == b[0] {
      BeforeTotal(a[1..], b[1..]);
      if a[1..] == b[1..] {
        assert a == [a[0]] + a[1..] && b == [b[0]] + b[1..];
      }
    }
  }

  lemma {:induction false} BeforeAsymmetric(a: Key, b: Key)
    requires Before(a, b)
    ensures a != b && !Before(b, a)
  {
    if a != "" && a[0] == b[0] {
      BeforeAsymmetric(a[1..], b[1..]);
    }
  }

  ghost predicate IsFirst(m: Key, keys: set<Key>) {
    m in keys && forall k :: k in keys ==> k == m || Before(m, k)
  }

  lemma {:induction false} FirstExists(keys: set<Key>)
    requires keys != {}
    ensures exists m :: IsFirst(m, keys)
  {
    var x :| x in keys;
    var rest := keys - {x};
    assert keys == rest + {x};
    if rest == {} {
      assert IsFirst(x, keys);
    } else {
      FirstExists(rest);
      var m :| IsFirst(m, rest);
      BeforeTotal(x, m);
      forall k | k in rest && Before(x, m)
        ensures k == m || Before(x, k)
      {
        if k != m {
          BeforeTransitive(x, m, k);
        }
      }
      assert IsFirst(m, keys) || IsFirst(x, keys);
    }
  }

  /** The keys a listing may return: under the prefix and after the token. */
  function Matching(keys: set<Key>, prefix: Key, token: Option<Key>): set<Key> {
    set k | k in keys && prefix <= k && (token.None? || Before(token.value, k))
  }

  /** page is an initial piece, in key order, of the keys that match. */
  ghost predicate IsPage(page: set<Key>, matching: set<Key>) {
    page <= matching && forall p, q :: p in page && q in matching - page ==> Before(p, q)
  }

  /** The last key of a page, as a token, continues the listing exactly after that page. */
  lemma TokenContinues(keys: set<Key>, prefix: Key, token: Option<Key>, page: set<Key>, next: Key)
    requires page <= Matching(keys, prefix, token) && next in page
    requires forall p :: p in page ==> p == next || Before(p, next)
    requires forall k :: k in Matching(keys, prefix, token) - page ==> Before(next, k)
    ensures Matching(keys, prefix, Some(next)) == Matching(keys, prefix, token) - page
  {
    forall k | k in Matching(keys, prefix, Some(next))
      ensures k in Matching(keys, prefix, token) && k !in page
    {
      BeforeAsymmetric(next, k);
      if token.Some? {
        BeforeTransitive(token.value, next, k);
      }
    }
  }

  class ObjectStore {
    const reliable: bool       // no call fails while the client is in use, but for the following
    const refused: set<Key>    // putting these keys fails, and deleting them is reported as failed
    const hidden: set<Key>     // listing under these prefixes fails
    var keys: set<Key>

    constructor (reliable: bool, refused: set<Key>, hidden: set<Key>)
      ensures keys == {} && this.reliable == reliable && this.refused == refused && this.hidden == hidden
    {
      this.reliable, this.refused, this.hidden, keys := reliable, refused, hidden, {};
    }

    /** Stores one object; a failed call may or may not have stored it. */
    method PutObject(key: Key, ghost worker: WorkerId, ghost trace: Trace) returns (ok: bool, ghost stored: bool)
      modifies this, trace
      ensures keys == if stored then old(keys) + {key} else old(keys)
      ensures trace.events == old(trace.events) + if stored then [PutArtifact(worker, key)] else []
      ensures ok ==> stored
      ensures reliable && key !in refused ==> ok
      ensures key in refused ==> !stored
    {
      var notStored := Fails(reliable, key in refused);
      if notStored {
        return false, false;
      }
      keys, stored := keys + {key}, true;
      trace.events := trace.events + [PutArtifact(worker, key)];
      var replyLost := Fails(reliable);
      ok := !replyLost;
    }

    /** Deletes the keys of a page; a call that succeeds may still report `failed` keys, which stay. */
    method DeleteObjects(page: set<Key>) returns (ok: bool, failed: set<Key>)
      modifies this
      ensures failed <= page
      ensures ok ==> keys == old(keys) - (page - failed)
      ensures !ok ==> old(keys) - page <= keys <= old(keys)
      ensures reliable ==> ok && failed == refused * page
    {
      var fault := Fails(reliable);
      ok, failed := !fault, refused * page;
      var denied := Fails(reliable);
      if fault || denied {
        var kept: set<Key> := *;
        failed := kept * page;
      }
      keys := keys - (page - failed);
    }

    /** One page of at least one key, if any matches, and the token that continues after it. */
    method ListObjects(prefix: Key, token: Option<Key>) returns (ok: bool, page: set<Key>, truncated: bool, next: Key)
      ensures reliable && prefix !in hidden ==> ok
      ensures prefix in hidden ==> !ok
      ensures ok ==> IsPage(page, Matching(keys, prefix, token))
      ensures ok ==> (truncated <==> page != Matching(keys, prefix, token))
      ensures ok && Matching(keys, prefix, token) != {} ==> page != {}
      ensures ok && page != {} ==>
                next in page && forall k :: k in Matching(keys, prefix, token) - page ==> Before(next, k)
      ensures ok && page != {} ==> forall p :: p in page ==> p == next || Before(p, next)
    {
      var fault := Fails(reliable, prefix in hidden);
      ok := !fault;
      page, truncated, next := {}, false, "";
      var matching := Matching(keys, prefix, token);
      var rest := matching;
      var more := true;
      while rest != {} && more
        invariant page !! rest && page + rest == matching && IsPage(page, matching)
        invariant page != {} ==> next in page && forall k :: k in rest ==> Before(next, k)
        invariant page != {} ==> forall p :: p in page ==> p == next || Before(p, next)
        invariant page == {} ==> more
        decreases rest
      {
        FirstExists(rest);
        var m :| m in rest && forall k :: k in rest ==> k == m || Before(m, k);
        page, rest, next := page + {m}, rest - {m}, m;
        more := *;
      }
      truncated := rest != {};
    }

    /**
      Deletes the objects under the prefix, page by page. Each page is deleted before
      the next one is listed, which is sound because the token is a key. The keys that
      successful calls report as failed are ignored, and they are exactly what is left.
     */
    method DeleteObjectsByPrefix(prefix: Key) returns (ok: bool, ghost failed: set<Key>)
      modifies this
      ensures reliable && prefix !in hidden ==> ok && failed == set k | k in old(keys) && prefix <= k && k in refused
      ensures prefix in hidden ==> !ok && keys == old(keys)
      ensures failed <= old(keys) && forall k :: k in failed ==> prefix <= k
      ensures ok ==> keys == set k | k in old(keys) && (prefix <= k ==> k in failed)
      ensures !ok ==> keys <= old(keys) && forall k :: k in old(keys) && k !in keys ==> prefix <= k
    {
      var token: Option<Key> := None;
      failed := {};
      while true
        invariant keys <= old(keys) && forall k :: k in old(keys) && k !in keys ==> prefix <= k
        invariant failed !! Matching(keys, prefix, token)
        invariant Matching(keys, prefix, None) == Matching(keys, prefix, token) + failed
        invariant reliable ==> failed <= refused
        invariant prefix in hidden ==> keys == old(keys)
        invariant forall k :: k in Matching(keys, prefix, token) ==> k in old(keys)
        invariant reliable ==> forall k :: k in old(keys) && prefix <= k && k in refused ==> k in keys
        decreases Matching(keys, prefix, token)
      {
        var listed, page, truncated, next := ListObjects(prefix, token);
        if !listed {
          return false, failed;
        }
        if page == {} {
          break;
        }
        TokenContinues(keys, prefix, token, page, next);
        ghost var all, matching := keys, Matching(keys, prefix, token);
        var deleted, errors := DeleteObjects(page);
        if !deleted {
          return false, failed;
        }
        AfterDelete(all, keys, prefix, token, next, page, errors);
        failed := failed + errors;
        if !truncated {
          assert page == matching;
          break;
        }
        token := Some(next);
      }
      assert Matching(keys, prefix, None) == failed;
      assert forall k :: k in keys && prefix <= k ==> k in Matching(keys, prefix, None);
      ok := true;
    }

    /** Deleting a page but for its failed keys leaves those, and what the next listing will match. */
    static lemma AfterDelete(all: set<Key>, left: set<Key>, prefix: Key, token: Option<Key>, next: Key,
                             page: set<Key>, errors: set<Key>)
      requires page <= Matching(all, prefix, token) && errors <= page && left == all - (page - errors)
      requires Matching(all, prefix, Some(next)) == Matching(all, prefix, token) - page
      ensures Matching(left, prefix, Some(next)) == Matching(all, prefix, token) - page
      ensures Matching(left, prefix, None) == Matching(all, prefix, None) - (page - errors)
    {
    }
  }
}
