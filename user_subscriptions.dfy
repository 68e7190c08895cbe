/**
 * The subscription list of the frontend (frontend/src/App.jsx): the user's
 * own subscriptions kept in local storage, merged after the fixed ones
 * served by the worker; adding a user subscription refuses URLs already
 * present up to an `http`/`https` scheme, and deleting one removes the
 * entries carrying its id.
 *
 * Local storage, `window.confirm`, `Date.now()` and `Math.random()` are
 * parameters: the stored text as already parsed, whether saving succeeded,
 * the user's answer, and the new id.
 */
module UserSubscriptions {
  import opened JsString
  import opened JsValue

  const UnnamedSubscription := "未命名订阅"
  const FixedIdPrefix := "fixed_"

  /** An entry of `userSubscriptions`. */
  datatype Subscription = Subscription(id: string, name: string, url: string)

  /** An entry of `fixedSubscriptions`, which carries no id. */
  datatype FixedSubscription = FixedSubscription(name: string, url: string)

  /** An entry of `mergedSubscriptions`. */
  datatype MergedEntry = MergedEntry(id: string, name: string, url: string, isFixed: bool)

  // ---------------------------------------------------------------------------
  // Loading the stored list

  /** An element of the stored array: something other than an object, or a record's three properties. */
  datatype StoredItem = NotRecord | Record(id: Field, name: Field, url: Field)

  /** What local storage held under the subscriptions key, once parsed. */
  datatype Stored =
    | Absent                        // no entry, or an empty one
    | Unparsable                    // `JSON.parse` throws
    | NotArray                      // valid JSON that is not an array
    | Array(items: seq<StoredItem>)

  /** The list the app starts with, and whether it writes a cleaned list back. */
  datatype Loaded = Loaded(subs: seq<StoredItem>, rewrite: bool)

  /** `sub && sub.id && sub.name && sub.url`. */
  predicate IsValidStored(item: StoredItem) {
    item.Record? && Truthy(item.id) && Truthy(item.name) && Truthy(item.url)
  }

  /** `items.filter(sub => sub && sub.id && sub.name && sub.url)`. */
  function ValidStored(items: seq<StoredItem>): (kept: seq<StoredItem>)
    ensures |kept| <= |items|
    ensures forall k :: 0 <= k < |kept| ==> IsValidStored(kept[k])
  {
    if items == [] then []
    else (if IsValidStored(items[0]) then [items[0]] else []) + ValidStored(items[1..])
  }

  /**
   * The start-up load: nothing stored or unparsable gives the empty list; a
   * non-array gives the empty list and is overwritten; an array keeps its
   * valid records and is overwritten when some were dropped. `saved` says
   * whether that write succeeds: when it throws, the `catch` empties the list.
   */
  function LoadUserSubscriptions(stored: Stored, saved: bool): (r: Loaded)
    ensures forall k :: 0 <= k < |r.subs| ==> IsValidStored(r.subs[k])
    ensures r.subs != [] ==> stored.Array? && (saved || !r.rewrite)
    ensures r.rewrite ==> stored.NotArray? || stored.Array?
    ensures stored.Array? && (saved || !r.rewrite) ==> r.subs == ValidStored(stored.items)
    ensures stored.NotArray? ==> r == Loaded([], true)
    ensures r.rewrite <==> stored.NotArray? || (stored.Array? && ValidStored(stored.items) != stored.items)
  {
    match stored
    case Absent => Loaded([], false)
    case Unparsable => Loaded([], false)
    case NotArray => Loaded([], true)
    case Array(items) =>
      var kept := ValidStored(items);
      ValidStoredSameLength(items);
      if |kept| == |items| then Loaded(kept, false)
      else if saved then Loaded(kept, true)
      else Loaded([], true)
  }

  /** The filter keeps exactly the valid records. */
  lemma {:induction false} ValidStoredMembership(items: seq<StoredItem>, x: StoredItem)
    ensures x in ValidStored(items) <==> x in items && IsValidStored(x)
  {
    if items != [] {
      ValidStoredMembership(items[1..], x);
      assert items == [items[0]] + items[1..];
    }
  }

  /** The filter keeps the order: filtering a concatenation filters each part. */
  lemma {:induction false} ValidStoredConcat(a: seq<StoredItem>, b: seq<StoredItem>)
    ensures ValidStored(a + b) == ValidStored(a) + ValidStored(b)
  {
    if a != [] {
      assert (a + b)[1..] == a[1..] + b;
      ValidStoredConcat(a[1..], b);
    } else {
      assert a + b == b;
    }
  }

  /** A list of valid records passes the filter unchanged. */
  lemma {:induction false} ValidStoredAllValid(items: seq<StoredItem>)
    requires forall k :: 0 <= k < |items| ==> IsValidStored(items[k])
    ensures ValidStored(items) == items
  {
    if items != [] {
      ValidStoredAllValid(items[1..]);
      assert items == [items[0]] + items[1..];
    }
  }

  /** A filter that drops nothing returns its input. */
  lemma {:induction false} ValidStoredSameLength(items: seq<StoredItem>)
    ensures |ValidStored(items)| == |items| ==> ValidStored(items) == items
  {
    if items != [] {
      ValidStoredSameLength(items[1..]);
    }
  }

  /** The filter drops something exactly when some record is invalid. */
  lemma {:induction false} ValidStoredDrops(items: seq<StoredItem>)
    ensures |ValidStored(items)| < |items| <==> exists k :: 0 <= k < |items| && !IsValidStored(items[k])
  {
    if items != [] {
      ValidStoredDrops(items[1..]);
      if exists k :: 0 <= k < |items[1..]| && !IsValidStored(items[1..][k]) {
        var k :| 0 <= k < |items[1..]| && !IsValidStored(items[1..][k]);
        assert !IsValidStored(items[k + 1]);
      }
      if exists k :: 0 <= k < |items| && !IsValidStored(items[k]) {
        var k :| 0 <= k < |items| && !IsValidStored(items[k]);
        if k > 0 {
          assert !IsValidStored(items[1..][k - 1]);
        }
      }
    }
  }

  /** The stored array is written back exactly when it held an invalid record. */
  lemma LoadRewritesInvalid(items: seq<StoredItem>, saved: bool)
    ensures LoadUserSubscriptions(Array(items), saved).rewrite
            <==> exists k :: 0 <= k < |items| && !IsValidStored(items[k])
  {
    ValidStoredDrops(items);
  }

  /** Loading the list that a load produced gives it back, with nothing to rewrite. */
  lemma LoadStable(stored: Stored, saved: bool, saved2: bool)
    ensures var r := LoadUserSubscriptions(stored, saved);
            LoadUserSubscriptions(Array(r.subs), saved2) == Loaded(r.subs, false)
  {
    var r := LoadUserSubscriptions(stored, saved);
    ValidStoredAllValid(r.subs);
  }

  // ---------------------------------------------------------------------------
  // Merging

  /** `fixedSubscriptions.map(sub => ({...sub, id: `fixed_${sub.url}`, isFixed: true}))`. */
  function MarkFixed(fixed: seq<FixedSubscription>): (r: seq<MergedEntry>)
    ensures |r| == |fixed|
    ensures forall k :: 0 <= k < |r| ==> r[k].isFixed && r[k].id == FixedIdPrefix + r[k].url
  {
    if fixed == [] then []
    else
      var f := fixed[0];
      [MergedEntry(FixedIdPrefix + f.url, f.name, f.url, true)] + MarkFixed(fixed[1..])
  }

  /** `userSubscriptions.map(sub => ({...sub, isFixed: false}))`. */
  function MarkUser(user: seq<Subscription>): (r: seq<MergedEntry>)
    ensures |r| == |user|
    ensures forall k :: 0 <= k < |r| ==> !r[k].isFixed
  {
    if user == [] then []
    else
      var s := user[0];
      [MergedEntry(s.id, s.name, s.url, false)] + MarkUser(user[1..])
  }

  /** `mergedSubscriptions`: every fixed entry, then every user entry. */
  function Merge(fixed: seq<FixedSubscription>, user: seq<Subscription>): (merged: seq<MergedEntry>)
    ensures |merged| == |fixed| + |user|
    ensures forall k :: 0 <= k < |merged| ==> (merged[k].isFixed <==> k < |fixed|)
    ensures forall k :: 0 <= k < |fixed| ==> merged[k].id == FixedIdPrefix + merged[k].url
  {
    MarkFixed(fixed) + MarkUser(user)
  }

  /** The user entries of a merged list, in order, without the `isFixed` mark. */
  function UserPart(merged: seq<MergedEntry>): seq<Subscription>
  {
    if merged == [] then []
    else
      var m := merged[0];
      (if m.isFixed then [] else [Subscription(m.id, m.name, m.url)]) + UserPart(merged[1..])
  }

  /** The fixed entries of a merged list, in order, without the added id and mark. */
  function FixedPart(merged: seq<MergedEntry>): seq<FixedSubscription>
  {
    if merged == [] then []
    else
      var m := merged[0];
      (if m.isFixed then [FixedSubscription(m.name, m.url)] else []) + FixedPart(merged[1..])
  }

  lemma {:induction false} PartsConcat(a: seq<MergedEntry>, b: seq<MergedEntry>)
    ensures UserPart(a + b) == UserPart(a) + UserPart(b)
    ensures FixedPart(a + b) == FixedPart(a) + FixedPart(b)
  {
    if a != [] {
      assert (a + b)[1..] == a[1..] + b;
      PartsConcat(a[1..], b);
    } else {
      assert a + b == b;
    }
  }

  lemma {:induction false} MarkFixedParts(fixed: seq<FixedSubscription>)
    ensures UserPart(MarkFixed(fixed)) == [] && FixedPart(MarkFixed(fixed)) == fixed
  {
    if fixed != [] {
      MarkFixedParts(fixed[1..]);
      var m := MarkFixed(fixed);
      assert m[1..] == MarkFixed(fixed[1..]);
      assert fixed == [fixed[0]] + fixed[1..];
    }
  }

  lemma {:induction false} MarkUserParts(user: seq<Subscription>)
    ensures UserPart(MarkUser(user)) == user && FixedPart(MarkUser(user)) == []
  {
    if user != [] {
      MarkUserParts(user[1..]);
      var m := MarkUser(user);
      assert m[1..] == MarkUser(user[1..]);
      assert user == [user[0]] + user[1..];
    }
  }

  /** The merged list falls apart into exactly the fixed list and the user list it was built from. */
  lemma MergeSplits(fixed: seq<FixedSubscription>, user: seq<Subscription>)
    ensures FixedPart(Merge(fixed, user)) == fixed
    ensures UserPart(Merge(fixed, user)) == user
  {
    PartsConcat(MarkFixed(fixed), MarkUser(user));
    MarkFixedParts(fixed);
    MarkUserParts(user);
  }

  /** The user entry at position `k` appears in the merged list after all fixed entries. */
  lemma {:induction false} MarkUserAt(user: seq<Subscription>, k: nat)
    requires k < |user|
    ensures MarkUser(user)[k] == MergedEntry(user[k].id, user[k].name, user[k].url, false)
  {
    if k > 0 {
      MarkUserAt(user[1..], k - 1);
    }
  }

  // ---------------------------------------------------------------------------
  // Adding

  /** `u.replace(/^https?:\/\//, '')`: the URL without a leading `http://` or `https://`. */
  function NormalizeUrl(u: string): (r: string)
    ensures |r| <= |u| && r == u[|u| - |r|..]
    ensures |r| < |u| ==> StartsWith(u, HttpScheme) || StartsWith(u, HttpsScheme)
  {
    if StartsWith(u, HttpsScheme) then u[|HttpsScheme|..]
    else if StartsWith(u, HttpScheme) then u[|HttpScheme|..]
    else u
  }

  /** Either scheme is stripped, once, and the rest is kept whatever it holds. */
  lemma SchemeStripped(x: string)
    ensures NormalizeUrl(HttpScheme + x) == x
    ensures NormalizeUrl(HttpsScheme + x) == x
  {
    var h := HttpScheme + x;
    assert h[4] == ':';
    assert !StartsWith(h, HttpsScheme);
    assert h[..|HttpScheme|] == HttpScheme && h[|HttpScheme|..] == x;
    var hs := HttpsScheme + x;
    assert hs[..|HttpsScheme|] == HttpsScheme && hs[|HttpsScheme|..] == x;
  }

  /** The `http` and `https` forms of one address normalise alike. */
  lemma SchemeInsensitive(x: string)
    ensures NormalizeUrl(HttpScheme + x) == NormalizeUrl(HttpsScheme + x)
  {
    SchemeStripped(x);
  }

  /** `mergedSubscriptions.some(sub => normalizeUrl(sub.url) === normalizeUrl(url))`. */
  predicate IsDuplicate(merged: seq<MergedEntry>, url: string) {
    exists k :: 0 <= k < |merged| && NormalizeUrl(merged[k].url) == NormalizeUrl(url)
  }

  /**
   * `name.trim() || url.split('/').pop() || '未命名订阅'`: the trimmed name,
   * else the text after the URL's last `/`, else the default.
   */
  function DefaultName(name: string, url: string): (r: string)
    ensures r != []
    ensures Trim(name) != [] ==> r == Trim(name)
    ensures Trim(name) == [] && r != UnnamedSubscription ==> '/' !in r && |r| <= |url| && r == url[|url| - |r|..]
    ensures Trim(name) == [] && r != UnnamedSubscription ==> |r| == |url| || url[|url| - |r| - 1] == '/'
    ensures Trim(name) == [] ==>
              r == (if LastPiece(url, '/') != [] then LastPiece(url, '/') else UnnamedSubscription)
  {
    var n := Trim(name);
    if n != [] then n
    else
      var last := LastPiece(url, '/');
      LastPieceSuffix(url, '/');
      LastPieceAfterSeparator(url, '/');
      if last != [] then last else UnnamedSubscription
  }

  /**
   * `handleAddUserSubscription`: the user list after adding `name`/`url`
   * under `newId`, given the fixed list; `saved` says whether writing local
   * storage succeeded (the source rolls the list back when it fails).
   */
  function AddUserSubscription(fixed: seq<FixedSubscription>, user: seq<Subscription>,
                               name: string, url: string, newId: string, saved: bool): (r: seq<Subscription>)
    ensures r == user || r == user + [Subscription(newId, DefaultName(name, Trim(url)), Trim(url))]
    ensures r != user <==> saved && !IsDuplicate(Merge(fixed, user), Trim(url))
  {
    var u := Trim(url);
    if IsDuplicate(Merge(fixed, user), u) || !saved then user
    else user + [Subscription(newId, DefaultName(name, u), u)]
  }

  /**
   * Once a URL has been added, adding it again, or any URL that normalises
   * to the same address, leaves the list as it is.
   */
  lemma AddRejectsSameAddress(fixed: seq<FixedSubscription>, user: seq<Subscription>,
                              name: string, url: string, newId: string,
                              name2: string, url2: string, newId2: string, saved2: bool)
    requires AddUserSubscription(fixed, user, name, url, newId, true) != user
    requires NormalizeUrl(Trim(url2)) == NormalizeUrl(Trim(url))
    ensures var user1 := AddUserSubscription(fixed, user, name, url, newId, true);
            AddUserSubscription(fixed, user1, name2, url2, newId2, saved2) == user1
  {
    var user1 := AddUserSubscription(fixed, user, name, url, newId, true);
    var k := |user|;
    MarkUserAt(user1, k);
    var merged := Merge(fixed, user1);
    assert merged[|fixed| + k] == MarkUser(user1)[k];
    assert NormalizeUrl(merged[|fixed| + k].url) == NormalizeUrl(Trim(url2));
  }

  /** The `http://` and `https://` forms of an added address cannot both be added. */
  lemma AddRejectsOtherScheme(fixed: seq<FixedSubscription>, user: seq<Subscription>,
                              name: string, x: string, newId: string,
                              name2: string, newId2: string, saved2: bool)
    requires IsTrimmed(x) && AddUserSubscription(fixed, user, name, HttpScheme + x, newId, true) != user
    ensures var user1 := AddUserSubscription(fixed, user, name, HttpScheme + x, newId, true);
            AddUserSubscription(fixed, user1, name2, HttpsScheme + x, newId2, saved2) == user1
  {
    SchemeStripped(x);
    TrimTrimmed(HttpScheme + x);
    TrimTrimmed(HttpsScheme + x);
    AddRejectsSameAddress(fixed, user, name, HttpScheme + x, newId, name2, HttpsScheme + x, newId2, saved2);
  }

  // ---------------------------------------------------------------------------
  // Deleting

  /** `userSubscriptions.find(sub => sub.id === id)` finds something. */
  predicate HasId(user: seq<Subscription>, id: string) {
    exists k :: 0 <= k < |user| && user[k].id == id
  }

  /** `userSubscriptions.filter(sub => sub.id !== id)`. */
  function RemoveId(user: seq<Subscription>, id: string): (r: seq<Subscription>)
    ensures |r| <= |user|
    ensures forall k :: 0 <= k < |r| ==> r[k].id != id
  {
    if user == [] then []
    else (if user[0].id == id then [] else [user[0]]) + RemoveId(user[1..], id)
  }

  /**
   * `handleDeleteUserSubscription`: an unknown id, a declined confirmation or
   * a failed save leave the list as it was; otherwise the entries with the id go.
   */
  function DeleteUserSubscription(user: seq<Subscription>, id: string, confirmed: bool, saved: bool): (r: seq<Subscription>)
    ensures r == user || !HasId(r, id)
    ensures r != user <==> HasId(user, id) && confirmed && saved
    ensures r != user ==> r == RemoveId(user, id)
  {
    if !HasId(user, id) || !confirmed || !saved then user
    else
      var r := RemoveId(user, id);
      RemoveIdShrinks(user, id);
      r
  }

  /** Removing an id that is present makes the list shorter. */
  lemma {:induction false} RemoveIdShrinks(user: seq<Subscription>, id: string)
    requires HasId(user, id)
    ensures |RemoveId(user, id)| < |user|
  {
    if user[0].id != id {
      var k :| 0 <= k < |user| && user[k].id == id;
      assert user[1..][k - 1].id == id;
      RemoveIdShrinks(user[1..], id);
    }
  }

  /** Exactly the entries with other ids survive. */
  lemma {:induction false} RemoveIdMembership(user: seq<Subscription>, id: string, x: Subscription)
    ensures x in RemoveId(user, id) <==> x in user && x.id != id
  {
    if user != [] {
      RemoveIdMembership(user[1..], id, x);
      assert user == [user[0]] + user[1..];
    }
  }

  /** The survivors keep their order: removing from a concatenation removes from each part. */
  lemma {:induction false} RemoveIdConcat(a: seq<Subscription>, b: seq<Subscription>, id: string)
    ensures RemoveId(a + b, id) == RemoveId(a, id) + RemoveId(b, id)
  {
    if a != [] {
      var head := if a[0].id == id then [] else [a[0]];
      assert (a + b)[1..] == a[1..] + b;
      RemoveIdConcat(a[1..], b, id);
      assert RemoveId(a + b, id) == head + RemoveId(a[1..] + b, id);
    } else {
      assert a + b == b;
    }
  }

  /** Without the id, removal changes nothing. */
  lemma {:induction false} RemoveIdAbsent(user: seq<Subscription>, id: string)
    requires !HasId(user, id)
    ensures RemoveId(user, id) == user
  {
    if user != [] {
      RemoveIdAbsent(user[1..], id);
      assert user == [user[0]] + user[1..];
    }
  }

  /** Deleting a just-added subscription under a fresh id gives back the list before the add. */
  lemma DeleteUndoesAdd(fixed: seq<FixedSubscription>, user: seq<Subscription>,
                        name: string, url: string, newId: string)
    requires !HasId(user, newId)
    requires AddUserSubscription(fixed, user, name, url, newId, true) != user
    ensures var user1 := AddUserSubscription(fixed, user, name, url, newId, true);
            DeleteUserSubscription(user1, newId, true, true) == user
  {
    var u := Trim(url);
    var entry := Subscription(newId, DefaultName(name, u), u);
    var user1 := user + [entry];
    assert user1[|user|].id == newId;
    RemoveIdConcat(user, [entry], newId);
    RemoveIdAbsent(user, newId);
    assert RemoveId([entry], newId) == [];
  }
}
