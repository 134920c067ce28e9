/**
 * The `torrent_cache` plugin (flexget/plugins/services/torrent_cache.py): for
 * every accepted entry whose info-hash it can find, it appends the torrent
 * cache mirror addresses for that hash to the entry's `urls` list, leaving out
 * the addresses the list already holds.
 */
module TorrentCache {
  import opened Wrappers
  import opened Text
  import opened Engine

  /** The active cache hosts (`MIRRORS`). */
  const Mirrors: seq<string> := ["http://torrage.com/torrent/", "http://zoink.it/torrent/", "http://torrage.ws/torrent/"]

  /**
   * The field types this plugin relies on: a text `url`, a list `urls` when
   * present, and a text (or `None`) `torrent_info_hash` when present.
   */
  predicate WellTyped(f: Fields) {
    && "url" in f && f["url"].Text?
    && ("urls" in f ==> f["urls"].TextList?)
    && ("torrent_info_hash" in f ==> f["torrent_info_hash"].Text? || f["torrent_info_hash"].Null?)
  }

  /** `btih:` in any letter case, followed by a hexadecimal digit, starts at position `i`. */
  predicate BtihAt(s: string, i: int) {
    0 <= i && i + 6 <= |s| && Lower(s[i..i + 5]) == "btih:" && IsHexDigit(s[i + 5])
  }

  /** The longest run of hexadecimal digits at the start of `s`. */
  function HexRun(s: string): (r: string)
    ensures StartsWith(s, r)
    ensures forall k :: 0 <= k < |r| ==> IsHexDigit(r[k])
    ensures |r| == |s| || !IsHexDigit(s[|r|])
  {
    if s != [] && IsHexDigit(s[0]) then [s[0]] + HexRun(s[1..]) else []
  }

  /**
   * `re.search('btih:([0-9a-f]+)', s, re.IGNORECASE)`: the hexadecimal run after
   * the leftmost `btih:`, or `None` when there is no match.
   */
  function BtihHash(s: string): (r: Option<string>)
    ensures r.Some? ==> r.value != [] && forall k :: 0 <= k < |r.value| ==> IsHexDigit(r.value[k])
  {
    match BtihFrom(s, 0)
    case None => None
    case Some(i) => Some(HexRun(s[i + 5..]))
  }

  /** The leftmost position at or after `i` where `btih:` and a hexadecimal digit start. */
  function BtihFrom(s: string, i: nat): (r: Option<nat>)
    ensures r.Some? ==> i <= r.value && BtihAt(s, r.value)
    decreases |s| - i
  {
    if i + 6 > |s| then None
    else if BtihAt(s, i) then Some(i)
    else BtihFrom(s, i + 1)
  }

  /** The search finds no match only when there is none. */
  lemma {:induction false} BtihFromNone(s: string, i: nat)
    ensures BtihFrom(s, i).None? <==> forall k :: i <= k ==> !BtihAt(s, k)
    decreases |s| - i
  {
    if i + 6 <= |s| && !BtihAt(s, i) {
      BtihFromNone(s, i + 1);
    }
  }

  /** The match the search finds is the leftmost one. */
  lemma {:induction false} BtihFromFirst(s: string, i: nat)
    ensures BtihFrom(s, i).Some? ==> forall k :: i <= k < BtihFrom(s, i).value ==> !BtihAt(s, k)
    decreases |s| - i
  {
    if i + 6 <= |s| && !BtihAt(s, i) {
      BtihFromFirst(s, i + 1);
    }
  }

  /**
   * `re.search` semantics: no hash exactly when no `btih:` is followed by a
   * hexadecimal digit; otherwise the digit run after the leftmost one.
   */
  lemma BtihHashIsLeftmost(s: string)
    ensures BtihHash(s).None? <==> forall i :: 0 <= i < |s| ==> !BtihAt(s, i)
    ensures BtihHash(s).Some? ==> exists i ::
      && BtihAt(s, i) && (forall j :: 0 <= j < i ==> !BtihAt(s, j)) && BtihHash(s).value == HexRun(s[i + 5..])
  {
    BtihFromNone(s, 0);
    BtihFromFirst(s, 0);
  }

  /**
   * The info-hash of an entry: from a `magnet:` URL, the `btih:` match (and
   * nothing else, even when `torrent_info_hash` is set); otherwise a truthy
   * `torrent_info_hash`.
   */
  function InfoHash(f: Fields): (r: Option<string>)
    requires WellTyped(f)
    ensures r.Some? ==> r.value != ""
    ensures StartsWith(f["url"].s, "magnet:") ==> r == BtihHash(f["url"].s)
    ensures !StartsWith(f["url"].s, "magnet:") ==>
      r == (if Truthy(Get(f, "torrent_info_hash")) then Some(f["torrent_info_hash"].s) else None)
  {
    var url := f["url"].s;
    if StartsWith(url, "magnet:") then
      BtihHash(url)
    else if "torrent_info_hash" in f && Truthy(f["torrent_info_hash"]) then Some(f["torrent_info_hash"].s)
    else None
  }

  /** `entry.setdefault('urls', [entry['url']])`: the list the new addresses are appended to. */
  function ExistingUrls(f: Fields): seq<string>
    requires WellTyped(f)
  {
    if "urls" in f then f["urls"].items else [f["url"].s]
  }

  /** The cache address of `hash` on one mirror. */
  function MirrorUrl(host: string, hash: string): string {
    host + Upper(hash) + ".torrent"
  }

  /** The cache addresses of `hash`, one per mirror. */
  function MirrorUrls(hash: string): (r: seq<string>)
    ensures |r| == |Mirrors| && NoRepeats(r)
    ensures forall k :: 0 <= k < |Mirrors| ==> r[k] == MirrorUrl(Mirrors[k], hash)
  {
    var r := seq(|Mirrors|, k requires 0 <= k < |Mirrors| => MirrorUrl(Mirrors[k], hash));
    assert forall k :: 0 <= k < |Mirrors| ==> |r[k]| == |Mirrors[k]| + |hash| + 8;
    r
  }

  /** The elements of `all` that `existing` lacks, in the order of `all`. */
  function Missing(all: seq<string>, existing: seq<string>): (r: seq<string>)
    ensures forall u :: u in r <==> u in all && u !in existing
    ensures NoRepeats(all) ==> NoRepeats(r)
  {
    if all == [] then []
    else (if all[0] !in existing then [all[0]] else []) + Missing(all[1..], existing)
  }

  /**
   * What the handler does to one accepted entry: without an info-hash nothing;
   * otherwise `urls` becomes the existing list (unchanged, as a prefix) followed
   * by each mirror address it lacked, exactly once, in some order.
   */
  ghost predicate Rewritten(before: Fields, after: Fields)
    requires WellTyped(before)
  {
    match InfoHash(before)
    case None => after == before
    case Some(h) =>
      var prior := ExistingUrls(before);
      && "urls" in after && after["urls"].TextList?
      && after == before["urls" := after["urls"]]
      && var now := after["urls"].items;
      && |prior| <= |now| && now[..|prior|] == prior
      && NoRepeats(now[|prior|..])
      && (forall u :: u in now[|prior|..] <==> u in MirrorUrls(h) && u !in prior)
  }

  class TorrentCache {
    /** The body of the loop over `task.accepted`, for one entry. */
    method RewriteEntry(entry: Entry)
      requires WellTyped(entry.fields)
      modifies entry
      ensures entry.mark == old(entry.mark)
      ensures Rewritten(old(entry.fields), entry.fields)
    {
      var infoHash := InfoHash(entry.fields);
      if infoHash.Some? {
        var existing := ExistingUrls(entry.fields);
        var added := Missing(MirrorUrls(infoHash.value), existing);
        entry.fields := entry.fields["urls" := TextList(existing + added)];
        assert (existing + added)[|existing|..] == added;
      }
    }

    /** `on_task_urlrewrite`: only the accepted entries are examined. */
    method OnTaskUrlrewrite(task: Task)
      requires task.Valid()
      requires forall i :: 0 <= i < |task.allEntries| && task.allEntries[i].mark.status == Accepted ==>
        WellTyped(task.allEntries[i].fields)
      modifies task.allEntries
      ensures forall i :: 0 <= i < |task.allEntries| ==>
        var e := task.allEntries[i];
        && e.mark == old(e.mark)
        && (if old(e.mark.status) == Accepted then Rewritten(old(e.fields), e.fields) else e.fields == old(e.fields))
    {
      var accepted := AcceptedOf(task.allEntries);
      assert forall e :: e in accepted ==> e in task.allEntries && e.mark.status == Accepted;
      var j := 0;
      while j < |accepted|
        invariant 0 <= j <= |accepted|
        invariant forall i :: 0 <= i < |task.allEntries| && task.allEntries[i] in accepted ==>
          old(task.allEntries[i].mark.status) == Accepted
        invariant forall i :: 0 <= i < |task.allEntries| ==> task.allEntries[i].mark == old(task.allEntries[i].mark)
        invariant forall i :: 0 <= i < |task.allEntries| && task.allEntries[i] !in accepted[..j] ==>
          task.allEntries[i].fields == old(task.allEntries[i].fields)
        invariant forall i :: 0 <= i < |task.allEntries| && task.allEntries[i] in accepted[..j] ==>
          Rewritten(old(task.allEntries[i].fields), task.allEntries[i].fields)
      {
        var entry := accepted[j];
        assert entry.fields == old(entry.fields) by {
          assert NoRepeats(accepted);
          assert entry !in accepted[..j];
        }
        RewriteEntry(entry);
        InPrefixSnoc(accepted, j);
        j := j + 1;
      }
      assert accepted[..j] == accepted;
    }
  }

  /** The prefix one longer holds the shorter prefix and one more element. */
  lemma InPrefixSnoc(s: seq<Entry>, j: nat)
    requires j < |s|
    ensures forall x :: x in s[..j + 1] <==> x in s[..j] || x == s[j]
  {
    assert s[..j + 1] == s[..j] + [s[j]];
  }

  /** The extended list has no repetition when the existing one had none. */
  lemma {:induction false} NoDuplicateUrls(before: Fields, after: Fields)
    requires WellTyped(before) && Rewritten(before, after) && NoRepeats(ExistingUrls(before))
    ensures WellTyped(after) && NoRepeats(ExistingUrls(after))
  {
    if InfoHash(before).Some? {
      var prior := ExistingUrls(before);
      var now := after["urls"].items;
      var added := now[|prior|..];
      assert now == prior + added;
      forall i, j | 0 <= i < j < |now|
        ensures now[i] != now[j]
      {
        if j >= |prior| && i < |prior| {
          assert now[j] == added[j - |prior|];
          assert now[j] in added;
          assert now[i] in prior;
        } else if i >= |prior| {
          assert now[i] == added[i - |prior|] && now[j] == added[j - |prior|];
        }
      }
    }
  }

  /** The rewrite keeps `url` and `torrent_info_hash`, so the entry's info-hash is unchanged. */
  lemma SameInfoHash(before: Fields, after: Fields)
    requires WellTyped(before) && Rewritten(before, after)
    ensures WellTyped(after) && InfoHash(after) == InfoHash(before)
  {
    assert after["url"] == before["url"];
    assert Get(after, "torrent_info_hash") == Get(before, "torrent_info_hash");
  }

  /** After the rewrite every mirror address of the hash is in the entry's list. */
  lemma {:induction false} AllMirrorsListed(before: Fields, after: Fields)
    requires WellTyped(before) && Rewritten(before, after) && InfoHash(before).Some?
    ensures WellTyped(after)
    ensures forall u :: u in MirrorUrls(InfoHash(before).value) ==> u in ExistingUrls(after)
  {
    SameInfoHash(before, after);
    var now := after["urls"].items;
    var prior := ExistingUrls(before);
    forall u | u in MirrorUrls(InfoHash(before).value)
      ensures u in now
    {
      if u !in prior {
        assert u in now[|prior|..];
      } else {
        assert u in now[..|prior|];
      }
    }
  }

  /** Running the rewrite a second time adds nothing: every mirror address is already listed. */
  lemma {:induction false} RewriteIsIdempotent(before: Fields, after: Fields, again: Fields)
    requires WellTyped(before) && Rewritten(before, after)
    ensures WellTyped(after)
    ensures Rewritten(after, again) ==> again == after
  {
    SameInfoHash(before, after);
    if Rewritten(after, again) && InfoHash(after).Some? {
      AllMirrorsListed(before, after);
      var now := ExistingUrls(after);
      var more := again["urls"].items;
      var extra := more[|now|..];
      forall u
        ensures multiset(extra)[u] == 0
      {
        assert u !in extra;
      }
      assert multiset(extra) == multiset{};
      assert |extra| == |multiset(extra)| == 0;
      assert more == more[..|now|] + extra;
      assert more == now;
    }
  }
}
