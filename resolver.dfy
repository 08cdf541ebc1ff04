/**
 * `get_video_durations`: looks the ids up in consecutive batches of at most
 * 50 and records, for every item of every response, its decoded duration
 * under its id. The videos endpoint is modelled by a function from the batch
 * sent to the response received.
 */
module Resolver {
  import opened Wrappers
  import opened Errors
  import opened Duration

  /** The videos endpoint's limit on ids per request. */
  const BatchSize := 50

  /** One item of a lookup response: `item['id']` and `item['contentDetails']['duration']`. */
  datatype Item = Item(id: string, duration: string)

  /** A lookup response: HTTP status and its items. */
  datatype Reply = Reply(status: int, items: seq<Item>)

  function Min(a: int, b: int): int {
    if a <= b then a else b
  }

  /** `[ids[i:i + 50] for i in range(0, len(ids), 50)]`. */
  function Batches(ids: seq<string>): seq<seq<string>>
    decreases |ids|
  {
    if |ids| == 0 then [] else [ids[..Min(BatchSize, |ids|)]] + Batches(ids[Min(BatchSize, |ids|)..])
  }

  function Concat(bs: seq<seq<string>>): seq<string> {
    if |bs| == 0 then [] else bs[0] + Concat(bs[1..])
  }

  /**
   * The batches partition the ids: concatenated they give the ids back, there
   * are ceil(n / 50) of them, none is empty and all but the last hold exactly 50.
   */
  lemma {:induction false} BatchesPartition(ids: seq<string>)
    ensures Concat(Batches(ids)) == ids
    ensures |Batches(ids)| == (|ids| + BatchSize - 1) / BatchSize
    ensures forall k :: 0 <= k < |Batches(ids)| ==> 0 < |Batches(ids)[k]| <= BatchSize
    ensures forall k :: 0 <= k < |Batches(ids)| - 1 ==> |Batches(ids)[k]| == BatchSize
    decreases |ids|
  {
    if |ids| > 0 {
      var n := Min(BatchSize, |ids|);
      var rest := Batches(ids[n..]);
      BatchesPartition(ids[n..]);
      assert ids[..n] + ids[n..] == ids;
      var bs := Batches(ids);
      assert bs == [ids[..n]] + rest;
      assert bs[1..] == rest;
      if |ids| <= BatchSize {
        assert |rest| == 0;
      } else {
        assert |rest| == (|ids| - BatchSize + BatchSize - 1) / BatchSize;
      }
      forall k | 0 <= k < |bs| ensures 0 < |bs[k]| <= BatchSize {
        if k > 0 {
          assert bs[k] == rest[k - 1];
        }
      }
      forall k | 0 <= k < |bs| - 1 ensures |bs[k]| == BatchSize {
        if k > 0 {
          assert bs[k] == rest[k - 1];
        }
      }
    }
  }

  /** 120 ids are looked up as 50, 50 and 20. */
  lemma Batches120(ids: seq<string>)
    requires |ids| == 120
    ensures |Batches(ids)| == 3
    ensures Batches(ids) == [ids[..50], ids[50..100], ids[100..]]
  {
    assert ids[..Min(BatchSize, |ids|)] == ids[..50];
    assert Batches(ids) == [ids[..50]] + Batches(ids[50..]);
    var r1 := ids[50..];
    assert r1[..Min(BatchSize, |r1|)] == ids[50..100] && r1[50..] == ids[100..];
    assert Batches(r1) == [ids[50..100]] + Batches(ids[100..]);
    var r2 := ids[100..];
    assert r2[..Min(BatchSize, |r2|)] == r2 && r2[20..] == [];
    assert Batches(r2) == [r2];
  }

  /** The loop over one response: `durations[id] = parse_duration(duration)` item by item. */
  function Record(acc: map<string, nat>, items: seq<Item>): Result<map<string, nat>, Error>
    decreases |items|
  {
    if |items| == 0 then Ok(acc)
    else match Decode(items[0].duration)
      case None => Err(BadDuration(items[0].duration))
      case Some(v) => Record(acc[items[0].id := v], items[1..])
  }

  /** One batch: the request, the status check, and the recording of its items. */
  function Step(acc: map<string, nat>, batch: seq<string>, lookup: seq<string> -> Reply): Result<map<string, nat>, Error> {
    var reply := lookup(batch);
    if reply.status != 200 then Err(LookupFailed(reply.status)) else Record(acc, reply.items)
  }

  /** The batches in order, stopping at the first failure. */
  function Resolve(acc: map<string, nat>, batches: seq<seq<string>>, lookup: seq<string> -> Reply)
    : Result<map<string, nat>, Error>
    decreases |batches|
  {
    if |batches| == 0 then Ok(acc)
    else match Step(acc, batches[0], lookup)
      case Err(e) => Err(e)
      case Ok(m) => Resolve(m, batches[1..], lookup)
  }

  /** What `get_video_durations` returns. */
  function Durations(ids: seq<string>, lookup: seq<string> -> Reply): Result<map<string, nat>, Error> {
    Resolve(map[], Batches(ids), lookup)
  }

  /** The batches from offset `i` on start with the slice `ids[i:i + 50]`. */
  lemma BatchAt(ids: seq<string>, i: nat)
    requires i < |ids|
    ensures Batches(ids[i..]) == [ids[i..Min(i + BatchSize, |ids|)]] + Batches(ids[Min(i + BatchSize, |ids|)..])
  {
    assert ids[i..][..Min(BatchSize, |ids| - i)] == ids[i..Min(i + BatchSize, |ids|)];
    assert ids[i..][Min(BatchSize, |ids| - i)..] == ids[Min(i + BatchSize, |ids|)..];
  }

  /** The inner loop of `get_video_durations`: `durations[item['id']] = parse_duration(...)` per item. */
  method RecordItems(durations: map<string, nat>, items: seq<Item>) returns (r: Result<map<string, nat>, Error>)
    ensures r == Record(durations, items)
  {
    var current: map<string, nat> := durations;
    for j := 0 to |items|
      invariant Record(durations, items) == Record(current, items[j..])
    {
      var item := items[j];
      var d := ParseDuration(item.duration);
      if d.None? {
        return Err(BadDuration(item.duration));
      }
      current := current[item.id := d.value];
      assert items[j..][1..] == items[j + 1..];
    }
    r := Ok(current);
  }

  lemma ResolveFirst(acc: map<string, nat>, batch: seq<string>, later: seq<seq<string>>, lookup: seq<string> -> Reply)
    ensures Step(acc, batch, lookup).Err? ==> Resolve(acc, [batch] + later, lookup) == Step(acc, batch, lookup)
    ensures Step(acc, batch, lookup).Ok?
        ==> Resolve(acc, [batch] + later, lookup) == Resolve(Step(acc, batch, lookup).value, later, lookup)
  {
    assert ([batch] + later)[0] == batch && ([batch] + later)[1..] == later;
  }

  /** `get_video_durations`: one lookup per batch, filling `durations` in place. */
  method GetVideoDurations(videoIds: seq<string>, lookup: seq<string> -> Reply)
    returns (r: Result<map<string, nat>, Error>, sent: seq<seq<string>>)
    ensures r == Durations(videoIds, lookup)
    ensures sent <= Batches(videoIds)
    ensures r.Ok? ==> sent == Batches(videoIds)
  {
    var durations: map<string, nat> := map[];
    var i := 0;
    sent := [];
    ghost var all := Batches(videoIds);
    ghost var k := 0;
    while i < |videoIds|
      invariant 0 <= i <= |videoIds| && 0 <= k <= |all|
      invariant sent == all[..k] && Batches(videoIds[i..]) == all[k..]
      invariant Durations(videoIds, lookup) == Resolve(durations, all[k..], lookup)
      decreases |videoIds| - i
    {
      var batch := videoIds[i..Min(i + BatchSize, |videoIds|)];
      BatchAt(videoIds, i);
      assert all[k] == batch;
      ResolveFirst(durations, batch, all[k + 1..], lookup);
      assert all[k..] == [batch] + all[k + 1..];
      sent := sent + [batch];
      assert sent == all[..k + 1];
      var response := lookup(batch);
      if response.status != 200 {
        r := Err(LookupFailed(response.status));
        return;
      }
      var recorded := RecordItems(durations, response.items);
      if recorded.Err? {
        r := recorded;
        return;
      }
      durations := recorded.value;
      i := i + |batch|;
      k := k + 1;
    }
    assert all[k..] == [];
    r := Ok(durations);
  }

  // ---------------------------------------------------------------------------
  // What the map holds

  /** Every item of every response, in the order the loop visits them. */
  function AllItems(batches: seq<seq<string>>, lookup: seq<string> -> Reply): seq<Item>
    decreases |batches|
  {
    if |batches| == 0 then [] else lookup(batches[0]).items + AllItems(batches[1..], lookup)
  }

  function ItemIds(items: seq<Item>): set<string> {
    set j | 0 <= j < |items| :: items[j].id
  }

  lemma {:induction false} RecordAppend(acc: map<string, nat>, a: seq<Item>, b: seq<Item>)
    ensures Record(acc, a).Err? ==> Record(acc, a + b) == Record(acc, a)
    ensures Record(acc, a).Ok? ==> Record(acc, a + b) == Record(Record(acc, a).value, b)
    decreases |a|
  {
    if |a| == 0 {
      assert a + b == b;
    } else {
      assert (a + b)[0] == a[0] && (a + b)[1..] == a[1..] + b;
      match Decode(a[0].duration)
      case None =>
      case Some(v) =>
        assert Record(acc, a) == Record(acc[a[0].id := v], a[1..]);
        assert Record(acc, a + b) == Record(acc[a[0].id := v], a[1..] + b);
        RecordAppend(acc[a[0].id := v], a[1..], b);
    }
  }

  /** When no lookup fails, batch by batch is the same as recording all response items in one go. */
  lemma {:induction false} ResolveRecordsAll(acc: map<string, nat>, batches: seq<seq<string>>, lookup: seq<string> -> Reply)
    requires Resolve(acc, batches, lookup).Ok?
    ensures Resolve(acc, batches, lookup) == Record(acc, AllItems(batches, lookup))
    decreases |batches|
  {
    if |batches| > 0 {
      var reply := lookup(batches[0]);
      RecordAppend(acc, reply.items, AllItems(batches[1..], lookup));
      var m := Step(acc, batches[0], lookup).value;
      ResolveRecordsAll(m, batches[1..], lookup);
    }
  }

  /** The keys after recording are the old keys plus the ids of the items. */
  lemma {:induction false} RecordKeys(acc: map<string, nat>, items: seq<Item>)
    requires Record(acc, items).Ok?
    ensures Record(acc, items).value.Keys == acc.Keys + ItemIds(items)
    decreases |items|
  {
    if |items| > 0 {
      var v := Decode(items[0].duration).value;
      RecordKeys(acc[items[0].id := v], items[1..]);
      assert ItemIds(items) == {items[0].id} + ItemIds(items[1..]) by {
        forall x | x in ItemIds(items) ensures x in {items[0].id} + ItemIds(items[1..]) {
          var j :| 0 <= j < |items| && items[j].id == x;
          if j > 0 {
            assert items[1..][j - 1].id == x;
          }
        }
        forall x | x in ItemIds(items[1..]) ensures x in ItemIds(items) {
          var j :| 0 <= j < |items[1..]| && items[1..][j].id == x;
          assert items[j + 1].id == x;
        }
      }
    }
  }

  /** The value an id ends up with is the duration of the last item that carries it. */
  lemma {:induction false} RecordValue(acc: map<string, nat>, items: seq<Item>, key: string)
    requires Record(acc, items).Ok? && key in Record(acc, items).value
    ensures var m := Record(acc, items).value;
      || (key in acc && m[key] == acc[key] && forall j :: 0 <= j < |items| ==> items[j].id != key)
      || (exists j :: 0 <= j < |items| && items[j].id == key && Decode(items[j].duration) == Some(m[key])
            && forall j' :: j < j' < |items| ==> items[j'].id != key)
    decreases |items|
  {
    if |items| > 0 {
      var m := Record(acc, items).value;
      var v := Decode(items[0].duration).value;
      var acc' := acc[items[0].id := v];
      var rest := items[1..];
      assert Record(acc, items) == Record(acc', rest);
      RecordValue(acc', rest, key);
      if exists j :: 0 <= j < |rest| && rest[j].id == key && Decode(rest[j].duration) == Some(m[key])
            && forall j' :: j < j' < |rest| ==> rest[j'].id != key {
        var j :| 0 <= j < |rest| && rest[j].id == key && Decode(rest[j].duration) == Some(m[key])
                 && forall j' :: j < j' < |rest| ==> rest[j'].id != key;
        assert items[j + 1] == rest[j];
        forall j' | j + 1 < j' < |items| ensures items[j'].id != key {
          assert items[j'] == rest[j' - 1];
        }
      } else if key == items[0].id {
        forall j' | 0 < j' < |items| ensures items[j'].id != key {
          assert items[j'] == rest[j' - 1];
        }
      } else {
        forall j | 0 <= j < |items| ensures items[j].id != key {
          if j > 0 {
            assert items[j] == rest[j - 1];
          }
        }
      }
    }
  }

  /**
   * The keys of the result are exactly the ids some response returned (ids
   * missing from every response are absent), and each maps to the duration of
   * the last response item carrying it.
   */
  lemma DurationsFromResponses(ids: seq<string>, lookup: seq<string> -> Reply, key: string)
    requires Durations(ids, lookup).Ok?
    ensures var m := Durations(ids, lookup).value;
      && m.Keys == ItemIds(AllItems(Batches(ids), lookup))
      && (key in m ==> var items := AllItems(Batches(ids), lookup);
            exists j :: 0 <= j < |items| && items[j].id == key && Decode(items[j].duration) == Some(m[key])
              && forall j' :: j < j' < |items| ==> items[j'].id != key)
  {
    var items := AllItems(Batches(ids), lookup);
    ResolveRecordsAll(map[], Batches(ids), lookup);
    RecordKeys(map[], items);
    if key in Durations(ids, lookup).value {
      RecordValue(map[], items, key);
    }
  }

  /** One failing lookup fails the whole resolution: there are no partial results. */
  lemma {:induction false} ResolveFailFast(acc: map<string, nat>, batches: seq<seq<string>>, lookup: seq<string> -> Reply, k: nat)
    requires k < |batches| && lookup(batches[k]).status != 200
    ensures Resolve(acc, batches, lookup).Err?
    decreases k
  {
    if k > 0 {
      match Step(acc, batches[0], lookup)
      case Err(e) =>
      case Ok(m) =>
        assert batches[1..][k - 1] == batches[k];
        ResolveFailFast(m, batches[1..], lookup, k - 1);
    }
  }

  /** No ids: no batch, so no request (`sent` is a prefix of the batches), and an empty map. */
  lemma DurationsOfNothing(lookup: seq<string> -> Reply)
    ensures Batches([]) == []
    ensures Durations([], lookup) == Ok(map[])
  {
  }
}
