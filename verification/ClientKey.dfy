/** Which client a request is counted against, and what a client can do about it. */
module ClientKey {
  import opened Text
  import opened WindowSpec
  import MemoryLimiter
  import RedisLimiter

  datatype Request = Request(forwardedFor: Option<string>, host: Option<string>, now: real)

  /** The last part that is not blank, stripped. */
  function LastHop(parts: seq<string>): Option<string> {
    if parts == [] then None
    else
      var last := Strip(parts[|parts| - 1]);
      if last != "" then Some(last) else LastHop(parts[..|parts| - 1])
  }

  function KeyOf(r: Request, trustProxy: bool): string {
    var hop := if trustProxy && r.forwardedFor.Some? && r.forwardedFor.value != ""
               then LastHop(Split(r.forwardedFor.value, ',')) else None;
    if hop.Some? then hop.value
    else if r.host.Some? then r.host.value
    else "unknown"
  }

  predicate NoHop(parts: seq<string>, from: int) {
    forall i :: 0 <= from <= i < |parts| ==> Strip(parts[i]) == ""
  }

  /** `hop` is the last part that is not blank, stripped. */
  ghost predicate IsLastHop(parts: seq<string>, hop: string) {
    exists i :: 0 <= i < |parts| && hop == Strip(parts[i]) && hop != "" && NoHop(parts, i + 1)
  }

  lemma {:induction false} LastHopIs(parts: seq<string>)
    ensures LastHop(parts).None? <==> NoHop(parts, 0)
    ensures LastHop(parts).Some? ==> IsLastHop(parts, LastHop(parts).value)
  {
    if parts != [] {
      var n := |parts| - 1;
      if Strip(parts[n]) != "" {
        assert NoHop(parts, n + 1);
      } else {
        LastHopIs(parts[..n]);
        LaterPart(parts, 0);
        if LastHop(parts).Some? {
          LaterHop(parts, LastHop(parts).value);
        }
      }
    }
  }

  lemma {:induction false} LaterPart(parts: seq<string>, from: nat)
    requires parts != [] && Strip(parts[|parts| - 1]) == ""
    ensures NoHop(parts[..|parts| - 1], from) <==> NoHop(parts, from)
  {
    var past := parts[..|parts| - 1];
    assert forall i :: 0 <= i < |past| ==> past[i] == parts[i];
    if NoHop(past, from) {
      forall i | from <= i < |parts| ensures Strip(parts[i]) == "" {
        assert i < |past| ==> Strip(past[i]) == "";
      }
    }
  }

  lemma {:induction false} LaterHop(parts: seq<string>, hop: string)
    requires parts != [] && Strip(parts[|parts| - 1]) == "" && IsLastHop(parts[..|parts| - 1], hop)
    ensures IsLastHop(parts, hop)
  {
    var past := parts[..|parts| - 1];
    var i :| 0 <= i < |past| && hop == Strip(past[i]) && hop != "" && NoHop(past, i + 1);
    LaterPart(parts, i + 1);
    assert parts[i] == past[i];
  }

  /** The client of a request: the last hop of a trusted header that has one, else its address, else unknown. */
  lemma {:induction false} KeyIs(r: Request, trustProxy: bool)
    ensures trustProxy && r.forwardedFor.Some? && !NoHop(Split(r.forwardedFor.value, ','), 0) ==>
      IsLastHop(Split(r.forwardedFor.value, ','), KeyOf(r, trustProxy))
    ensures !trustProxy || r.forwardedFor.None? || NoHop(Split(r.forwardedFor.value, ','), 0) ==>
      KeyOf(r, trustProxy) == if r.host.Some? then r.host.value else "unknown"
  {
    if r.forwardedFor.Some? {
      LastHopIs(Split(r.forwardedFor.value, ','));
      if r.forwardedFor.value == "" {
        assert Split("", ',') == [""] && Strip("") == "";
      }
    }
  }

  /** A trusted proxy appends the address it saw; nothing sent in front of it reaches the limiter. */
  lemma {:induction false} EarlierHopsAreIgnored(spoofed: string, hop: string, host: Option<string>, now: real)
    requires Lacks(hop, ',') && Strip(hop) != ""
    ensures KeyOf(Request(Some(spoofed + "," + hop), host, now), true) == Strip(hop)
  {
    SplitLast(spoofed, ',', hop);
  }

  /** A request that came through the proxy: what the client sent, if anything, and what the proxy appended. */
  datatype Proxied = Proxied(spoofed: Option<string>, hop: string, now: real)

  function Forwarded(p: Proxied): string {
    if p.spoofed.Some? then p.spoofed.value + "," + p.hop else p.hop
  }

  predicate Appended(p: Proxied) {
    Lacks(p.hop, ',') && Strip(p.hop) != ""
  }

  /** With or without a header of the client's own, the key is the appended hop. */
  lemma {:induction false} KeyIsTheHop(p: Proxied, host: Option<string>)
    requires Appended(p)
    ensures KeyOf(Request(Some(Forwarded(p)), host, p.now), true) == Strip(p.hop)
  {
    if p.spoofed.Some? {
      EarlierHopsAreIgnored(p.spoofed.value, p.hop, host, p.now);
    } else {
      SplitWhole(p.hop, ',');
    }
  }

  function Calls(reqs: seq<Proxied>, host: Option<string>): (calls: seq<Call>)
    ensures |calls| == |reqs|
  {
    seq(|reqs|, i requires 0 <= i < |reqs| =>
      Call(KeyOf(Request(Some(Forwarded(reqs[i])), host, reqs[i].now), true), reqs[i].now))
  }

  /** Rewriting, adding or leaving out the client's part of the headers changes no answer of either backend. */
  lemma {:induction false} SpoofingChangesNoAnswer(
      a: seq<Proxied>, b: seq<Proxied>, host: Option<string>, limit: int, window: real)
    requires |a| == |b|
    requires forall i :: 0 <= i < |a| ==> Appended(a[i]) && b[i] == a[i].(spoofed := b[i].spoofed)
    ensures MemoryLimiter.Run(Calls(a, host), limit, window) == MemoryLimiter.Run(Calls(b, host), limit, window)
    ensures RedisLimiter.Run(Calls(a, host), limit, window) == RedisLimiter.Run(Calls(b, host), limit, window)
  {
    forall i | 0 <= i < |a| ensures Calls(a, host)[i] == Calls(b, host)[i] {
      KeyIsTheHop(a[i], host);
      KeyIsTheHop(b[i], host);
    }
    assert Calls(a, host) == Calls(b, host);
  }
}
