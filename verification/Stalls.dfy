/**
 When a station's run loop stands still (tools/channel_server.py): the stalls asked for, and the
 stretches the server keeps of them. The air clock never goes back, and no request is made ahead
 of it.
 */
module Stalls {

  /** A stall from `at`, for `samples`; one of no length or less covers nothing. */
  datatype Request = Request(at: int, samples: int)

  datatype Stretch = Stretch(start: int, end: int)

  /** The fields of a station that hold its stalls. */
  datatype Record = Record(start: int, end: int, stretches: seq<Stretch>)

  const NONE := Record(0, 0, [])

  /** A stall joins the last stretch if that has not ended. */
  function Extended(s: Record, at: int, samples: int): Record {
    var end := at + samples;
    if end <= s.end then s
    else if s.start <= at < s.end && s.stretches != [] then
      var n := |s.stretches| - 1;
      s.(end := end, stretches := s.stretches[n := s.stretches[n].(end := end)])
    else Record(at, end, s.stretches + [Stretch(at, end)])
  }

  predicate Requested(requests: seq<Request>, t: int) {
    exists i | 0 <= i < |requests| :: requests[i].at <= t < requests[i].at + requests[i].samples
  }

  predicate Stretched(stretches: seq<Stretch>, t: int) {
    exists i | 0 <= i < |stretches| :: stretches[i].start <= t < stretches[i].end
  }

  /** Where the requests reach, at the latest; nothing is asked for before the air begins. */
  function Furthest(requests: seq<Request>): int {
    if requests == [] then 0
    else
      var before, r := Furthest(requests[..|requests| - 1]), requests[|requests| - 1];
      if r.at + r.samples > before then r.at + r.samples else before
  }

  lemma FurthestOneMore(requests: seq<Request>, r: Request)
    ensures Furthest(requests + [r])
         == if r.at + r.samples > Furthest(requests) then r.at + r.samples else Furthest(requests)
  {
    assert (requests + [r])[..|requests|] == requests;
  }

  /** No request reaches beyond, and one reaches there, or none does past the beginning. */
  lemma {:induction false} FurthestMeans(requests: seq<Request>)
    ensures forall i | 0 <= i < |requests| :: requests[i].at + requests[i].samples <= Furthest(requests)
    ensures Furthest(requests) == 0
         || exists i | 0 <= i < |requests| :: requests[i].at + requests[i].samples == Furthest(requests)
    ensures Furthest(requests) >= 0
  {
    if requests != [] {
      var n := |requests| - 1;
      FurthestMeans(requests[..n]);
      assert forall i | 0 <= i < n :: requests[..n][i] == requests[i];
      if Furthest(requests) == Furthest(requests[..n]) != 0 {
        var i :| 0 <= i < n && requests[..n][i].at + requests[..n][i].samples == Furthest(requests[..n]);
        assert requests[i].at + requests[i].samples == Furthest(requests);
      }
    }
  }

  /** The stretches are in order, cover exactly what was asked for, and the last is the current. */
  ghost predicate Keeps(s: Record, requests: seq<Request>, now: int) {
    && InOrder(s, requests, now)
    && forall t {:trigger Stretched(s.stretches, t)} :: Stretched(s.stretches, t) <==> Requested(requests, t)
  }

  ghost predicate InOrder(s: Record, requests: seq<Request>, now: int) {
    && 0 <= now && s.start <= now && s.end == Furthest(requests)
    && (forall i | 0 <= i < |requests| :: requests[i].at <= now && requests[i].at + requests[i].samples <= s.end)
    && Lined(s)
  }

  ghost predicate Lined(s: Record) {
    && (if s.stretches == [] then s == NONE
        else s.stretches[|s.stretches| - 1] == Stretch(s.start, s.end))
    && (forall i | 0 <= i < |s.stretches| :: s.stretches[i].end <= s.end)
    && (forall i, j | 0 <= i < j < |s.stretches| :: s.stretches[i].end <= s.stretches[j].start)
  }

  lemma RequestedOneMore(requests: seq<Request>, r: Request, t: int)
    ensures Requested(requests + [r], t) <==> Requested(requests, t) || r.at <= t < r.at + r.samples
  {
    var more := requests + [r];
    if Requested(requests, t) {
      var i :| 0 <= i < |requests| && requests[i].at <= t < requests[i].at + requests[i].samples;
      assert more[i] == requests[i];
    }
    assert more[|requests|] == r;
  }

  lemma StretchedOneMore(stretches: seq<Stretch>, s: Stretch, t: int)
    ensures Stretched(stretches + [s], t) <==> Stretched(stretches, t) || s.start <= t < s.end
  {
    var more := stretches + [s];
    if Stretched(stretches, t) {
      var i :| 0 <= i < |stretches| && stretches[i].start <= t < stretches[i].end;
      assert more[i] == stretches[i];
    }
    assert more[|stretches|] == s;
  }

  lemma ExtendedCovers(s: Record, requests: seq<Request>, now: int, at: int, samples: int, t: int)
    requires Keeps(s, requests, now) && now <= at
    ensures Stretched(Extended(s, at, samples).stretches, t) <==> Requested(requests + [Request(at, samples)], t)
  {
    var end, n := at + samples, |s.stretches| - 1;
    RequestedOneMore(requests, Request(at, samples), t);
    assert Stretched(s.stretches, t) <==> Requested(requests, t);
    if end <= s.end {
      if at <= t < end { assert s.stretches[n].start <= t < s.stretches[n].end; }
    } else if s.start <= at < s.end && s.stretches != [] {
      assert s.stretches == s.stretches[..n] + [Stretch(s.start, s.end)];
      assert Extended(s, at, samples).stretches == s.stretches[..n] + [Stretch(s.start, end)];
      StretchedOneMore(s.stretches[..n], Stretch(s.start, s.end), t);
      StretchedOneMore(s.stretches[..n], Stretch(s.start, end), t);
    } else {
      StretchedOneMore(s.stretches, Stretch(at, end), t);
    }
  }

  lemma ExtendedInOrder(s: Record, requests: seq<Request>, now: int, at: int, samples: int)
    requires InOrder(s, requests, now) && now <= at
    ensures InOrder(Extended(s, at, samples), requests + [Request(at, samples)], at)
  {
    FurthestOneMore(requests, Request(at, samples));
    assert s.start <= at;
    ExtendedLined(s, at, samples);
  }

  lemma ExtendedLined(s: Record, at: int, samples: int)
    requires Lined(s) && s.start <= at && 0 <= at
    ensures Lined(Extended(s, at, samples))
  {
  }

  /** A request at the clock keeps the record exact. */
  lemma ExtendedKeeps(s: Record, requests: seq<Request>, now: int, at: int, samples: int)
    requires Keeps(s, requests, now) && now <= at
    ensures Keeps(Extended(s, at, samples), requests + [Request(at, samples)], at)
  {
    ExtendedInOrder(s, requests, now, at, samples);
    forall t ensures Stretched(Extended(s, at, samples).stretches, t)
                     <==> Requested(requests + [Request(at, samples)], t)
    {
      ExtendedCovers(s, requests, now, at, samples, t);
    }
  }

  /** From the clock on, the current stretch alone tells whether any request covers a sample. */
  lemma CurrentTells(s: Record, requests: seq<Request>, now: int, t: int)
    requires Keeps(s, requests, now) && now <= t
    ensures s.start <= t < s.end <==> Requested(requests, t)
  {
    assert Stretched(s.stretches, t) <==> Requested(requests, t);
    if s.start <= t < s.end {
      var n := |s.stretches| - 1;
      assert s.stretches[n].start <= t < s.stretches[n].end;
    }
  }

  lemma KeepsLater(s: Record, requests: seq<Request>, now: int, later: int)
    requires Keeps(s, requests, now) && now <= later
    ensures Keeps(s, requests, later)
  {
  }
}
