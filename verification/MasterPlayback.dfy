/** What the master playlist of a stream lists at every point of a run of the packaging task. */
module MasterPlayback {
  import opened Bytes
  import opened Playlist
  import opened Packager
  import opened PackagerSafety
  import opened Playback
  import Cleanup

  // ----- The renditions so far -----

  ghost predicate Arrived(past: seq<Packed>, r: string) {
    exists i :: 0 <= i < |past| && past[i].rendition == r
  }

  /** The first arrival of `r1` comes before any arrival of `r2`. */
  ghost predicate Precedes(past: seq<Packed>, r1: string, r2: string) {
    exists i :: 0 <= i < |past| && past[i].rendition == r1 && !Arrived(past[..i + 1], r2)
  }

  /** Every rendition that has arrived is listed, no other is, and the list is in the order of the first arrivals; so
      none is listed twice. */
  ghost predicate ListsArrived(names: seq<string>, past: seq<Packed>) {
    && (forall r :: r in names <==> Arrived(past, r))
    && (forall x, y :: 0 <= x < y < |names| ==> Precedes(past, names[x], names[y]))
  }

  lemma {:induction false} ArrivedNext(past: seq<Packed>, p: Packed, r: string)
    ensures Arrived(past + [p], r) <==> Arrived(past, r) || p.rendition == r
  {
    var next := past + [p];
    assert next[|past|] == p;
    if i :| 0 <= i < |past| && past[i].rendition == r {
      assert next[i] == past[i];
    }
  }

  lemma {:induction false} PrecedesStill(past: seq<Packed>, p: Packed, r1: string, r2: string)
    requires Precedes(past, r1, r2)
    ensures Precedes(past + [p], r1, r2)
  {
    var i :| 0 <= i < |past| && past[i].rendition == r1 && !Arrived(past[..i + 1], r2);
    assert (past + [p])[..i + 1] == past[..i + 1] && (past + [p])[i] == past[i];
  }

  /** A rendition that arrives for the first time comes after all others. */
  lemma {:induction false} PrecedesNew(past: seq<Packed>, p: Packed, r: string)
    requires Arrived(past, r) && !Arrived(past, p.rendition)
    ensures Precedes(past + [p], r, p.rendition)
  {
    var i :| 0 <= i < |past| && past[i].rendition == r;
    assert (past + [p])[i] == past[i] && (past + [p])[..i + 1] == past[..i + 1];
  }

  lemma {:induction false} RenditionsListed(past: seq<Packed>)
    ensures ListsArrived(Renditions(past), past)
  {
    if past != [] {
      var before, p := past[..|past| - 1], past[|past| - 1];
      assert before + [p] == past;
      RenditionsListed(before);
      NextListed(Renditions(before), before, p, Renditions(past));
    }
  }

  lemma {:induction false} NextListed(names: seq<string>, past: seq<Packed>, p: Packed, after: seq<string>)
    requires ListsArrived(names, past)
    requires after == if p.rendition in names then names else names + [p.rendition]
    ensures ListsArrived(after, past + [p])
  {
    forall r | true
      ensures r in after <==> Arrived(past + [p], r)
    {
      ArrivedNext(past, p, r);
    }
    forall x, y | 0 <= x < y < |after|
      ensures Precedes(past + [p], after[x], after[y])
    {
      if y < |names| {
        PrecedesStill(past, p, names[x], names[y]);
      } else {
        assert names[x] in names;
        PrecedesNew(past, p, names[x]);
      }
    }
  }

  // ----- What is stored -----

  /** The stored master playlist lists the renditions of the first `k` arrivals, among them all that have a segment. */
  ghost predicate MasterAt(cfg: Config, objects: map<string, Body>, past: seq<Packed>, k: nat) {
    && k <= |past|
    && (var path := MasterPlaylistPath(cfg.stream);
        if k == 0 then path !in objects
        else path in objects && objects[path] == Master(Renditions(past[..k])))
    && forall r, n :: SegmentPath(cfg.stream, r, n) in objects ==> r in Renditions(past[..k])
  }

  lemma {:induction false} OthersKeep(
    cfg: Config, objects: map<string, Body>, writes: map<string, Body>, past: seq<Packed>, p: Packed, k: nat)
    requires MasterAt(cfg, objects, past, k) && MasterPlaylistPath(cfg.stream) !in writes
    requires forall r, n :: SegmentPath(cfg.stream, r, n) !in writes
    ensures MasterAt(cfg, objects + writes, past + [p], k)
  {
    assert (past + [p])[..k] == past[..k];
  }

  /** Nothing of a block before the master playlist is stored under its path or under that of a segment. */
  lemma {:induction false} BeforeMaster(cfg: Config, past: seq<Packed>, p: Packed, block: seq<Output>, j: nat)
    requires block == Block(cfg, past, p) && j < |Opening(cfg, past, p)| && j <= |block|
    ensures MasterPlaylistPath(cfg.stream) !in Objects(block[..j])
    ensures forall r, n :: SegmentPath(cfg.stream, r, n) !in Objects(block[..j])
  {
    var init := InitWrite(cfg, p);
    PlaylistsApart(cfg.stream, p.rendition, 0, p.rendition);
    if j == 1 {
      assert block[..1] == [init];
      assert [init][..0] == [];
    } else {
      assert block[..0] == [];
    }
    forall r, n | true
      ensures SegmentPath(cfg.stream, r, n) !in Objects(block[..j])
    {
      SegmentAndInit(cfg.stream, r, n, p.rendition);
    }
  }

  /** Behind the opening, only this rendition's segment and playlist are written. */
  lemma {:induction false} BehindMaster(
    cfg: Config, past: seq<Packed>, p: Packed, rest: seq<Output>, r: string, n: nat)
    requires rest <= Publication(cfg, past, p)
    ensures MasterPlaylistPath(cfg.stream) !in Objects(rest)
    ensures SegmentPath(cfg.stream, r, n) in Objects(rest) ==> r == p.rendition
  {
    var all, master, seg := Publication(cfg, past, p), MasterPlaylistPath(cfg.stream), SegmentPath(cfg.stream, r, n);
    ObjectsHave(rest, master);
    ObjectsHave(rest, seg);
    PublicationSends(cfg, past, p, master);
    PublicationSends(cfg, past, p, seg);
    PlaylistsApart(cfg.stream, p.rendition, p.sequence, p.rendition);
    PlaylistsApart(cfg.stream, r, n, p.rendition);
    PlaylistPathsDiffer(cfg.stream, p.rendition, p.rendition);
    if HasSent(rest, master) {
      PrefixSent(rest, all, master);
    }
    if HasSent(rest, seg) {
      PrefixSent(rest, all, seg);
      Cleanup.SegmentPathsDiffer(cfg.stream, r, n, p.rendition, p.sequence);
    }
  }

  lemma {:induction false} PrefixSent(log: seq<Output>, full: seq<Output>, path: string)
    requires log <= full && HasSent(log, path)
    ensures HasSent(full, path)
  {
    var i :| 0 <= i < |log| && log[i].Sent? && log[i].path == path;
    assert full[i] == log[i];
  }

  lemma {:induction false} OpeningMaster(cfg: Config, past: seq<Packed>, p: Packed, r: string, n: nat)
    ensures var writes := Objects(Opening(cfg, past, p));
      && SegmentPath(cfg.stream, r, n) !in writes
      && (if p.rendition in Renditions(past) then MasterPlaylistPath(cfg.stream) !in writes
          else MasterPlaylistPath(cfg.stream) in writes
               && writes[MasterPlaylistPath(cfg.stream)] == Master(Renditions(past) + [p.rendition]))
  {
    var opening, seg := Opening(cfg, past, p), SegmentPath(cfg.stream, r, n);
    ObjectsHave(opening, seg);
    OpeningSends(cfg, past, p, seg);
    SegmentAndInit(cfg.stream, r, n, p.rendition);
    PlaylistsApart(cfg.stream, r, n, p.rendition);
    if p.rendition !in Renditions(past) {
      assert opening[..1] == [InitWrite(cfg, p)];
    }
  }

  /** Behind the opening, the master playlist lists the new arrival's rendition, too. */
  lemma {:induction false} OpenedMaster(
    cfg: Config, objects: map<string, Body>, past: seq<Packed>, p: Packed, rest: seq<Output>)
    requires MasterAt(cfg, objects, past, |past|) && rest <= Publication(cfg, past, p)
    ensures MasterAt(cfg, objects + Objects(Opening(cfg, past, p)) + Objects(rest), past + [p], |past| + 1)
  {
    var next, start, written := past + [p], Objects(Opening(cfg, past, p)), Objects(rest);
    assert next[..|past| + 1] == next && past[..|past|] == past && next[..|past|] == past;
    OpeningMaster(cfg, past, p, p.rendition, 0);
    BehindMaster(cfg, past, p, rest, p.rendition, 0);
    forall r, n | SegmentPath(cfg.stream, r, n) in objects + start + written
      ensures r in Renditions(next)
    {
      OpeningMaster(cfg, past, p, r, n);
      BehindMaster(cfg, past, p, rest, r, n);
    }
  }

  lemma {:induction false} BlockMaster(
    cfg: Config, objects: map<string, Body>, past: seq<Packed>, p: Packed, block: seq<Output>, j: nat)
    returns (k: nat)
    requires MasterAt(cfg, objects, past, |past|) && block == Block(cfg, past, p) && j <= |block|
    ensures MasterAt(cfg, objects + Objects(block[..j]), past + [p], k)
    ensures j == |block| ==> k == |past| + 1
  {
    var opening, all := Opening(cfg, past, p), Publication(cfg, past, p);
    if j < |opening| {
      k := |past|;
      BeforeMaster(cfg, past, p, block, j);
      OthersKeep(cfg, objects, Objects(block[..j]), past, p, k);
    } else {
      k := |past| + 1;
      var rest := all[..j - |opening|];
      OpenedMaster(cfg, objects, past, p, rest);
      TwoParts(opening, all, block, j, rest, objects);
    }
  }

  lemma {:induction false} TwoParts(
    opening: seq<Output>, all: seq<Output>, block: seq<Output>, j: nat, rest: seq<Output>, objects: map<string, Body>)
    requires block == opening + all && |opening| <= j <= |block| && rest == all[..j - |opening|]
    ensures objects + Objects(block[..j]) == objects + Objects(opening) + Objects(rest)
  {
    assert block[..j] == opening + rest;
    ObjectsAppend(opening, rest);
  }

  lemma {:induction false} FewerListed(cfg: Config, objects: map<string, Body>, past: seq<Packed>, p: Packed, k: nat)
    requires MasterAt(cfg, objects, past, k)
    ensures MasterAt(cfg, objects, past + [p], k)
  {
    assert (past + [p])[..k] == past[..k];
  }

  lemma {:induction false} BlocksMaster(cfg: Config, past: seq<Packed>, log: seq<Output>) returns (k: nat)
    requires log <= Blocks(cfg, past)
    ensures MasterAt(cfg, Objects(log), past, k)
    ensures log == Blocks(cfg, past) ==> k == |past|
  {
    k := 0;
    if past != [] {
      var before, p := past[..|past| - 1], past[|past| - 1];
      var b, block := Blocks(cfg, before), Block(cfg, before, p);
      LastArrival(past, before, p);
      if |log| < |b| {
        k := BlocksMaster(cfg, before, log);
        FewerListed(cfg, Objects(log), before, p, k);
      } else {
        var j := |log| - |b|;
        k := BlocksMaster(cfg, before, b);
        k := BlockMaster(cfg, Objects(b), before, p, block, j);
        Behind(b, block, log, j);
      }
    }
  }

  /** At every point of every run, the stored master playlist lists the renditions of the first `k` arrivals, each once
      and in the order of their first arrivals, and among them every rendition that has a segment stored. At the end of
      a run that nobody cut short, it lists all renditions. */
  lemma {:induction false} MasterListsArrived(cfg: Config, past: seq<Packed>, log: seq<Output>) returns (k: nat)
    requires log <= FullLog(cfg, past)
    ensures k <= |past|
    ensures var path := MasterPlaylistPath(cfg.stream);
      if k == 0 then path !in Objects(log)
      else path in Objects(log) && Objects(log)[path].Master?
           && ListsArrived(Objects(log)[path].renditions, past[..k])
    ensures forall r, n :: SegmentPath(cfg.stream, r, n) in Objects(log) ==> Arrived(past[..k], r)
    ensures log == FullLog(cfg, past) ==> k == |past|
  {
    var b := Blocks(cfg, past);
    if |log| <= |b| {
      assert log <= b;
      k := BlocksMaster(cfg, past, log);
    } else {
      k := BlocksMaster(cfg, past, b);
      FinalMaster(cfg, past, b, log);
    }
    RenditionsListed(past[..k]);
  }

  /** The final master playlist says the same again. */
  lemma {:induction false} FinalMaster(cfg: Config, past: seq<Packed>, b: seq<Output>, log: seq<Output>)
    requires MasterAt(cfg, Objects(b), past, |past|) && past != []
    requires |log| > |b| && log <= b + [MasterWrite(cfg, Renditions(past))]
    ensures MasterAt(cfg, Objects(log), past, |past|)
  {
    var path := MasterPlaylistPath(cfg.stream);
    assert log == b + [MasterWrite(cfg, Renditions(past))];
    assert log[..|log| - 1] == b && past[..|past|] == past;
    forall r, n | true
      ensures SegmentPath(cfg.stream, r, n) != path
    {
      PlaylistsApart(cfg.stream, r, n, r);
    }
  }
}
