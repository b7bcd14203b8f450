/**
 * The list edits behind the skill's notification handlers, as functions on
 * values: normalising an incoming notification, suppressing duplicates,
 * deleting the first entry whose sender and text match a payload, and the
 * archive scan of the storage-item handler exactly as its index loop runs.
 */
module Notifications {
  import opened Wrappers
  import opened Messages
  import opened Sequences

  /** An active notification: the four-field dict the display handler builds. */
  datatype Notification = Notification(sender: string, text: string, action: string, kind: string)

  /** The keys of a normalised notification dict. */
  const Fields: set<string> := {"sender", "text", "action", "type"}

  /** The dict a notification is on the Python side (`kind` is its "type" key). */
  function AsRecord(n: Notification): Value {
    Dict(map["sender" := n.sender, "text" := n.text, "action" := n.action, "type" := n.kind])
  }

  /** The value of `key` in `data`, or "" when it is absent (`dict.get(key, "")`). */
  function GetOrEmpty(data: map<string, string>, key: string): string {
    if key in data then data[key] else ""
  }

  /**
   * The notification the display handler builds from `message.data`: each of
   * the four fields is copied when present and "" when missing; other keys are dropped.
   */
  function Normalise(data: map<string, string>): (n: Notification)
    ensures AsRecord(n).entries.Keys == Fields
    ensures forall k :: k in Fields && k in data ==> AsRecord(n).entries[k] == data[k]
    ensures forall k :: k in Fields && k !in data ==> AsRecord(n).entries[k] == ""
  {
    Notification(GetOrEmpty(data, "sender"), GetOrEmpty(data, "text"),
                 GetOrEmpty(data, "action"), GetOrEmpty(data, "type"))
  }

  /** A notification dict passes through normalisation unchanged. */
  lemma NormaliseRecord(n: Notification)
    ensures Normalise(AsRecord(n).entries) == n
  {
  }

  /**
   * The active list after a notification arrives: appended unless an equal
   * four-field record is already there.
   */
  function Accept(active: seq<Notification>, n: Notification): (r: seq<Notification>)
    ensures n in r
    ensures |active| <= |r| && r[..|active|] == active
    ensures |r| == if n in active then |active| else |active| + 1
    ensures Distinct(active) ==> Distinct(r)
  {
    if n in active then active
    else
      DistinctAppend(active, n);
      active + [n]
  }

  /** Delivering the same notification twice leaves the list as one delivery does. */
  lemma AcceptIdempotent(active: seq<Notification>, n: Notification)
    ensures Accept(Accept(active, n), n) == Accept(active, n)
  {
  }

  /** The result of `Accept` is determined by its contract: the list, then `n` if it was absent. */
  lemma AcceptExtends(active: seq<Notification>, n: Notification, r: seq<Notification>)
    requires n in r && |active| <= |r| && r[..|active|] == active
    requires |r| == if n in active then |active| else |active| + 1
    ensures r == Accept(active, n)
  {
  }

  /** Both fields present in both dicts and equal: the condition the handlers test. */
  ghost predicate SameSenderText(e: Value, d: Value) {
    e.Dict? && d.Dict? &&
    "sender" in e.entries && "sender" in d.entries && "text" in e.entries && "text" in d.entries &&
    e.entries["sender"] == d.entries["sender"] && e.entries["text"] == d.entries["text"]
  }

  /**
   * `e["sender"] == d["sender"] and e["text"] == d["text"]`, evaluated left to
   * right with Python's short circuit: a missing key raises only when reached.
   */
  function SenderTextEqual(e: Value, d: Value): (r: Result<bool, PyError>)
    ensures r == Ok(true) <==> SameSenderText(e, d)
    ensures (e.Dict? && d.Dict? && "sender" in e.entries && "sender" in d.entries &&
             "text" in e.entries && "text" in d.entries) ==> r.Ok?
    ensures r.Err? ==> r.error != IndexError
  {
    var es :- Lookup(e, "sender");
    var ds :- Lookup(d, "sender");
    if es != ds then Ok(false)
    else
      var et :- Lookup(e, "text");
      var dt :- Lookup(d, "text");
      Ok(et == dt)
  }

  /**
   * The index loop `for i in range(len(s))` from index `i`: test each entry,
   * delete the first hit and stop, or stop at the first exception.
   */
  function DeleteFrom<T>(s: seq<T>, key: T -> Value, d: Value, i: nat): (r: Result<seq<T>, PyError>)
    requires i <= |s|
    ensures r.Ok? ==> |r.value| <= |s| <= |r.value| + 1
    ensures r.Ok? && |r.value| == |s| ==> r.value == s
    ensures r.Err? ==> r.error != IndexError
    decreases |s| - i
  {
    if i == |s| then Ok(s)
    else
      var hit :- SenderTextEqual(key(s[i]), d);
      if hit then Ok(s[..i] + s[i + 1..]) else DeleteFrom(s, key, d, i + 1)
  }

  /** Entries that the loop examines and passes over do not change its result. */
  lemma {:induction false} DeleteFromSkip<T>(s: seq<T>, key: T -> Value, d: Value, i: nat, j: nat)
    requires i <= j <= |s|
    requires forall k :: i <= k < j ==> SenderTextEqual(key(s[k]), d) == Ok(false)
    ensures DeleteFrom(s, key, d, i) == DeleteFrom(s, key, d, j)
    decreases j - i
  {
    if i < j {
      DeleteFromSkip(s, key, d, i + 1, j);
    }
  }

  /** The loop's result depends on the payload only through its "sender" and "text" lookups. */
  lemma {:induction false} DeleteFromIgnoresOtherKeys<T>(s: seq<T>, key: T -> Value, d1: Value, d2: Value, i: nat)
    requires i <= |s|
    requires Lookup(d1, "sender") == Lookup(d2, "sender") && Lookup(d1, "text") == Lookup(d2, "text")
    ensures DeleteFrom(s, key, d1, i) == DeleteFrom(s, key, d2, i)
    decreases |s| - i
  {
    if i < |s| {
      assert SenderTextEqual(key(s[i]), d1) == SenderTextEqual(key(s[i]), d2);
      DeleteFromIgnoresOtherKeys(s, key, d1, d2, i + 1);
    }
  }

  /** The deletion loop of the pop-clear and clear-delete handlers over the active list. */
  function DeleteFirstMatch(active: seq<Notification>, d: Value): (r: Result<seq<Notification>, PyError>)
    ensures active == [] ==> r == Ok([])
    ensures r.Ok? ==> |r.value| <= |active| <= |r.value| + 1
    ensures r.Ok? && |r.value| == |active| ==> r.value == active
    ensures r.Err? ==> r.error != IndexError
  {
    DeleteFrom(active, AsRecord, d, 0)
  }

  ghost predicate MatchesAt(active: seq<Notification>, k: int, sender: string, text: string)
    requires 0 <= k < |active|
  {
    active[k].sender == sender && active[k].text == text
  }

  /** `j` is the earliest index whose sender and text are the given ones. */
  ghost predicate IsFirstMatch(active: seq<Notification>, j: int, sender: string, text: string) {
    0 <= j < |active| && MatchesAt(active, j, sender, text) &&
    forall k :: 0 <= k < j ==> !MatchesAt(active, k, sender, text)
  }

  lemma SenderTextEqualOnRecord(n: Notification, m: map<string, string>)
    requires "sender" in m && "text" in m
    ensures SenderTextEqual(AsRecord(n), Dict(m)) == Ok(n.sender == m["sender"] && n.text == m["text"])
  {
  }

  /**
   * For a payload that carries both keys: the first active entry with the same
   * sender and text is deleted and every other entry keeps its place; with no
   * such entry the list is unchanged. Action and type play no part.
   */
  lemma DeleteFirstMatchSpec(active: seq<Notification>, m: map<string, string>)
    requires "sender" in m && "text" in m
    ensures (forall k :: 0 <= k < |active| ==> !MatchesAt(active, k, m["sender"], m["text"])) ==>
              DeleteFirstMatch(active, Dict(m)) == Ok(active)
    ensures forall j :: IsFirstMatch(active, j, m["sender"], m["text"]) ==>
              DeleteFirstMatch(active, Dict(m)) == Ok(active[..j] + active[j + 1..])
  {
    var d := Dict(m);
    forall k | 0 <= k < |active| ensures SenderTextEqual(AsRecord(active[k]), d) == Ok(MatchesAt(active, k, m["sender"], m["text"])) {
      SenderTextEqualOnRecord(active[k], m);
    }
    if forall k :: 0 <= k < |active| ==> !MatchesAt(active, k, m["sender"], m["text"]) {
      DeleteFromSkip(active, AsRecord, d, 0, |active|);
    }
    forall j | IsFirstMatch(active, j, m["sender"], m["text"])
      ensures DeleteFirstMatch(active, d) == Ok(active[..j] + active[j + 1..])
    {
      DeleteFromSkip(active, AsRecord, d, 0, j);
    }
  }

  /** With "sender" but no "text" in the payload, the loop raises exactly when some sender matches. */
  lemma {:induction false} DeleteFromMissingText(active: seq<Notification>, m: map<string, string>, i: nat)
    requires "sender" in m && "text" !in m && i <= |active|
    ensures DeleteFrom(active, AsRecord, Dict(m), i) ==
            if exists k :: i <= k < |active| && active[k].sender == m["sender"]
            then Err(KeyError("text")) else Ok(active)
    decreases |active| - i
  {
    if i < |active| {
      DeleteFromMissingText(active, m, i + 1);
    }
  }

  /**
   * The error cases of the deletion loop: on a non-empty list a payload that is
   * a string raises TypeError, one without "sender" raises KeyError("sender"),
   * and one without "text" raises KeyError("text") once some sender matches.
   * On an empty list nothing is looked up.
   */
  lemma DeleteFirstMatchErrors(active: seq<Notification>, d: Value)
    ensures active == [] ==> DeleteFirstMatch(active, d) == Ok([])
    ensures active != [] && d.Str? ==> DeleteFirstMatch(active, d) == Err(TypeError)
    ensures active != [] && d.Dict? && "sender" !in d.entries ==>
              DeleteFirstMatch(active, d) == Err(KeyError("sender"))
    ensures d.Dict? && "sender" in d.entries && "text" !in d.entries ==>
              DeleteFirstMatch(active, d) ==
              if exists k :: 0 <= k < |active| && active[k].sender == d.entries["sender"]
              then Err(KeyError("text")) else Ok(active)
  {
    if d.Dict? && "sender" in d.entries && "text" !in d.entries {
      DeleteFromMissingText(active, d.entries, 0);
    }
  }

  /** Payloads that agree on "sender" and "text" delete the same entry: action and type are ignored. */
  lemma DeleteFirstMatchIgnoresActionAndType(active: seq<Notification>, d1: Value, d2: Value)
    requires Lookup(d1, "sender") == Lookup(d2, "sender") && Lookup(d1, "text") == Lookup(d2, "text")
    ensures DeleteFirstMatch(active, d1) == DeleteFirstMatch(active, d2)
  {
    DeleteFromIgnoresOtherKeys(active, AsRecord, d1, d2, 0);
  }

  // ---------------------------------------------------------------------------
  // The archive scan of the storage-item handler.

  /** The archive and how the handler ended. */
  datatype Scan = Scan(archive: seq<Value>, outcome: Outcome)

  /**
   * The loop `for i in range(n)` over the archive, with `n` its length before
   * the loop: a hit is popped and the loop goes on with the next index, so the
   * entry after a popped one is never examined; an index past the shortened list
   * raises IndexError; a failed lookup raises its own error.
   */
  function ScanRemove(s: seq<Value>, d: Value, n: nat, i: nat): (r: Scan)
    ensures |r.archive| <= |s|
    ensures forall x :: x in r.archive ==> x in s
    decreases n - i
  {
    if i >= n then Scan(s, Done)
    else if i >= |s| then Scan(s, Raised(IndexError))
    else
      match SenderTextEqual(s[i], d)
      case Err(e) => Scan(s, Raised(e))
      case Ok(hit) => if hit then ScanRemove(s[..i] + s[i + 1..], d, n, i + 1) else ScanRemove(s, d, n, i + 1)
  }

  /** `r` is `s` with some entries deleted, each of them one that matches `d`. */
  ghost predicate DeletedOnlyHits(s: seq<Value>, r: seq<Value>, d: Value)
    decreases |s|
  {
    if s == [] then r == []
    else
      (r != [] && r[0] == s[0] && DeletedOnlyHits(s[1..], r[1..], d)) ||
      (SameSenderText(s[0], d) && DeletedOnlyHits(s[1..], r, d))
  }

  lemma {:induction false} DeletedNothing(s: seq<Value>, d: Value)
    ensures DeletedOnlyHits(s, s, d)
    decreases |s|
  {
    if s != [] {
      DeletedNothing(s[1..], d);
    }
  }

  /** Deleting only hits never lengthens the archive, and with no hit it deletes nothing. */
  lemma {:induction false} DeletedOnlyHitsProperties(s: seq<Value>, r: seq<Value>, d: Value)
    requires DeletedOnlyHits(s, r, d)
    ensures |r| <= |s|
    ensures (forall k :: 0 <= k < |s| ==> !SameSenderText(s[k], d)) ==> r == s
    ensures forall x :: x in r ==> x in s
    decreases |s|
  {
    if s != [] {
      if r != [] && r[0] == s[0] && DeletedOnlyHits(s[1..], r[1..], d) {
        DeletedOnlyHitsProperties(s[1..], r[1..], d);
        assert r == [r[0]] + r[1..];
        assert s == [s[0]] + s[1..];
        if forall k :: 0 <= k < |s| ==> !SameSenderText(s[k], d) {
          assert forall k :: 0 <= k < |s[1..]| ==> !SameSenderText(s[1..][k], d) by {
            forall k | 0 <= k < |s[1..]| ensures !SameSenderText(s[1..][k], d) { assert s[1..][k] == s[k + 1]; }
          }
        }
      } else {
        DeletedOnlyHitsProperties(s[1..], r, d);
        assert s[0] in s;
      }
    }
  }

  /** One step of `ScanRemoveShape`: the shape of the scan after popping the hit at index `i`. */
  lemma ShapeAfterPop(s: seq<Value>, r: seq<Value>, d: Value, i: nat)
    requires i + 2 <= |s| && SameSenderText(s[i], d)
    requires i + 1 <= |r| && r[..i + 1] == (s[..i] + s[i + 1..])[..i + 1]
    requires DeletedOnlyHits((s[..i] + s[i + 1..])[i + 1..], r[i + 1..], d)
    ensures r[..i] == s[..i] && DeletedOnlyHits(s[i..], r[i..], d)
  {
    var s' := s[..i] + s[i + 1..];
    assert s'[..i + 1] == s[..i] + [s[i + 1]];
    assert s'[i + 1..] == s[i + 2..];
    assert r[..i] == s[..i] by { assert r[..i] == r[..i + 1][..i]; }
    assert r[i..] == [s[i + 1]] + r[i + 1..] by { assert r[i] == r[..i + 1][i]; }
    assert s[i + 1..][1..] == s[i + 2..];
    assert DeletedOnlyHits(s[i + 1..], r[i..], d);
    assert s[i..][1..] == s[i + 1..];
  }

  /** The scan from index `i` keeps the first `i` entries and deletes only hits after them. */
  lemma {:induction false} ScanRemoveShape(s: seq<Value>, d: Value, n: nat, i: nat)
    requires i <= |s|
    ensures var r := ScanRemove(s, d, n, i).archive;
            i <= |r| && r[..i] == s[..i] && DeletedOnlyHits(s[i..], r[i..], d)
    decreases n - i
  {
    var r := ScanRemove(s, d, n, i).archive;
    if i >= n || i == |s| || SenderTextEqual(s[i], d).Err? {
      assert r == s;
      DeletedNothing(s[i..], d);
    } else if SenderTextEqual(s[i], d).value {
      var s' := s[..i] + s[i + 1..];
      assert SameSenderText(s[i], d);
      if i + 1 <= |s'| {
        ScanRemoveShape(s', d, n, i + 1);
        ShapeAfterPop(s, r, d, i);
      } else {
        assert r == s' && s' == s[..i];
        assert s[i..] == [s[i]];
        assert r[i..] == [];
        assert DeletedOnlyHits(s[i..][1..], r[i..], d);
      }
    } else {
      ScanRemoveShape(s, d, n, i + 1);
      assert r[..i] == r[..i + 1][..i];
      assert r[i] == r[..i + 1][i];
      assert s[i..][1..] == s[i + 1..] && r[i..][1..] == r[i + 1..];
    }
  }

  /** When every archived entry is examined and missed, the scan ends normally with nothing removed. */
  lemma {:induction false} ScanRemoveAllMiss(s: seq<Value>, d: Value, i: nat)
    requires i <= |s|
    requires forall k :: i <= k < |s| ==> SenderTextEqual(s[k], d) == Ok(false)
    ensures ScanRemove(s, d, |s|, i) == Scan(s, Done)
    decreases |s| - i
  {
    if i < |s| {
      ScanRemoveAllMiss(s, d, i + 1);
    }
  }

  /**
   * The storage-item handler as written: it removes only archived entries whose
   * sender and text match, never lengthens the archive, and leaves it as it was
   * when no entry matches; with every entry well formed it then ends normally.
   */
  lemma ScanRemoveSpec(s: seq<Value>, d: Value)
    ensures DeletedOnlyHits(s, ScanRemove(s, d, |s|, 0).archive, d)
    ensures |ScanRemove(s, d, |s|, 0).archive| <= |s|
    ensures (forall k :: 0 <= k < |s| ==> !SameSenderText(s[k], d)) ==> ScanRemove(s, d, |s|, 0).archive == s
    ensures (forall k :: 0 <= k < |s| ==> SenderTextEqual(s[k], d) == Ok(false)) ==> ScanRemove(s, d, |s|, 0) == Scan(s, Done)
  {
    ScanRemoveShape(s, d, |s|, 0);
    assert s[0..] == s;
    var r := ScanRemove(s, d, |s|, 0).archive;
    assert r[0..] == r;
    DeletedOnlyHitsProperties(s, r, d);
    if forall k :: 0 <= k < |s| ==> SenderTextEqual(s[k], d) == Ok(false) {
      ScanRemoveAllMiss(s, d, 0);
    }
  }

  /**
   * The scan as written on two small archives: popping a hit that is not the
   * last entry shifts the rest left, so the next entry is skipped and the loop
   * then indexes past the end and raises IndexError; a second matching entry survives.
   */
  lemma ScanRemoveSkipsAndRaises()
    ensures var a := Dict(map["sender" := "s", "text" := "t"]);
            var b := Dict(map["sender" := "u", "text" := "t"]);
            ScanRemove([a, b], a, 2, 0) == Scan([b], Raised(IndexError)) &&
            ScanRemove([a, a], a, 2, 0) == Scan([a], Raised(IndexError))
  {
  }

  /** Entries the scan examines and misses, before any pop, do not change its result. */
  lemma {:induction false} ScanRemoveSkip(s: seq<Value>, d: Value, n: nat, i: nat, j: nat)
    requires i <= j <= |s| && j <= n
    requires forall k :: i <= k < j ==> SenderTextEqual(s[k], d) == Ok(false)
    ensures ScanRemove(s, d, n, i) == ScanRemove(s, d, n, j)
    decreases j - i
  {
    if i < j {
      ScanRemoveSkip(s, d, n, i + 1, j);
    }
  }

  /**
   * Once the archive is shorter than the loop bound and every entry left to
   * examine is well formed, the scan ends in IndexError.
   */
  lemma {:induction false} ScanRemoveAfterPopRaises(s: seq<Value>, d: Value, n: nat, i: nat)
    requires i < n && |s| < n
    requires forall k :: i <= k < |s| ==> SenderTextEqual(s[k], d).Ok?
    ensures ScanRemove(s, d, n, i).outcome == Raised(IndexError)
    decreases n - i
  {
    if i < |s| {
      if SenderTextEqual(s[i], d).value {
        var s' := s[..i] + s[i + 1..];
        assert forall k :: i + 1 <= k < |s'| ==> s'[k] == s[k + 1];
        ScanRemoveAfterPopRaises(s', d, n, i + 1);
      } else {
        ScanRemoveAfterPopRaises(s, d, n, i + 1);
      }
    }
  }

  /**
   * The storage-item handler as written, on every archive of well-formed
   * entries: when the first match is not the last entry, the pop shortens
   * the archive under the fixed loop bound and the handler raises IndexError.
   */
  lemma ScanRemoveEarlyHitRaises(s: seq<Value>, d: Value, j: nat)
    requires j + 1 < |s|
    requires forall k :: 0 <= k < |s| ==> SenderTextEqual(s[k], d).Ok?
    requires SenderTextEqual(s[j], d) == Ok(true)
    requires forall k :: 0 <= k < j ==> SenderTextEqual(s[k], d) == Ok(false)
    ensures ScanRemove(s, d, |s|, 0).outcome == Raised(IndexError)
  {
    ScanRemoveSkip(s, d, |s|, 0, j);
    var s' := s[..j] + s[j + 1..];
    assert forall k :: j + 1 <= k < |s'| ==> s'[k] == s[k + 1];
    ScanRemoveAfterPopRaises(s', d, |s|, j + 1);
  }

  /** The archive removal the handler's docstring describes: the first matching entry only. */
  function RemoveFirstArchived(s: seq<Value>, d: Value): (r: Result<seq<Value>, PyError>)
    ensures r.Ok? ==> |r.value| <= |s| <= |r.value| + 1
    ensures r.Err? ==> r.error != IndexError
  {
    DeleteFrom(s, (v: Value) => v, d, 0)
  }

  /** `j` is the first archived entry that matches, all earlier ones examined and missed. */
  ghost predicate IsFirstHit(s: seq<Value>, d: Value, j: int) {
    0 <= j < |s| && SenderTextEqual(s[j], d) == Ok(true) &&
    forall k :: 0 <= k < j ==> SenderTextEqual(s[k], d) == Ok(false)
  }

  /**
   * The corrected removal deletes exactly the first matching entry and keeps
   * the order of the rest, leaves the archive alone when every entry misses,
   * and never raises IndexError.
   */
  lemma RemoveFirstArchivedSpec(s: seq<Value>, d: Value)
    ensures forall j :: IsFirstHit(s, d, j) ==> RemoveFirstArchived(s, d) == Ok(s[..j] + s[j + 1..])
    ensures (forall k :: 0 <= k < |s| ==> SenderTextEqual(s[k], d) == Ok(false)) ==> RemoveFirstArchived(s, d) == Ok(s)
    ensures RemoveFirstArchived(s, d) != Err(IndexError)
  {
    var id := (v: Value) => v;
    forall j | IsFirstHit(s, d, j) ensures RemoveFirstArchived(s, d) == Ok(s[..j] + s[j + 1..]) {
      DeleteFromSkip(s, id, d, 0, j);
    }
    if forall k :: 0 <= k < |s| ==> SenderTextEqual(s[k], d) == Ok(false) {
      DeleteFromSkip(s, id, d, 0, |s|);
    }
  }
}
