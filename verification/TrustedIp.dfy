/**
 * internal/httpapi/trusted_ip.go: which address a request is charged to.
 * netip's parser and prefix test are parameters.
 */
module TrustedIp {
  import opened Common
  import opened Text

  type Addr = nat

  /** netip.ParseAddr, and the trusted proxy prefixes as membership tests. */
  datatype Net = Net(parse: string -> Option<Addr>, trusted: seq<Addr -> bool>)
  {
    function ParseAddr(s: string): Option<Addr> {
      parse(TrimSpace(s))
    }

    predicate Trusts(a: Addr) {
      exists i :: 0 <= i < |trusted| && trusted[i](a)
    }

    function Parser(): string -> Option<Addr> {
      (s: string) => ParseAddr(s)
    }

    function Truster(): Addr -> bool {
      (a: Addr) => Trusts(a)
    }

    predicate IsTrusted(a: Option<Addr>) {
      a.Some? && Trusts(a.value)
    }
  }

  // ---------- reading the header ----------

  /** f over every element, the results one after the other. */
  function FlatMap<T>(f: string -> seq<T>, xs: seq<string>): seq<T> {
    if xs == [] then [] else FlatMap(f, xs[..|xs| - 1]) + f(xs[|xs| - 1])
  }

  lemma {:induction false} FlatMapAppend<T>(f: string -> seq<T>, xs: seq<string>, ys: seq<string>)
    ensures FlatMap(f, xs + ys) == FlatMap(f, xs) + FlatMap(f, ys)
  {
    if ys == [] {
      assert xs + ys == xs;
    } else {
      assert (xs + ys)[..|xs + ys| - 1] == xs + ys[..|ys| - 1];
      FlatMapAppend(f, xs, ys[..|ys| - 1]);
    }
  }

  lemma FlatMapSnoc<T>(f: string -> seq<T>, xs: seq<string>, x: string)
    ensures FlatMap(f, xs + [x]) == FlatMap(f, xs) + f(x)
  {
    assert (xs + [x])[..|xs|] == xs;
  }

  lemma FlatMapNext<T>(f: string -> seq<T>, xs: seq<string>, i: nat)
    requires i < |xs|
    ensures FlatMap(f, xs[..i + 1]) == FlatMap(f, xs[..i]) + f(xs[i])
  {
    assert xs[..i + 1] == xs[..i] + [xs[i]];
    FlatMapSnoc(f, xs[..i], xs[i]);
  }

  lemma FlatMapGrows<T>(f: string -> seq<T>, xs: seq<string>, a: string, b: string, more: seq<T>)
    requires f(b) == f(a) + more
    ensures FlatMap(f, xs + [b]) == FlatMap(f, xs + [a]) + more
  {
    FlatMapSnoc(f, xs, a);
    FlatMapSnoc(f, xs, b);
  }

  /** A part trimmed, or nothing if it is blank. */
  function Part(p: string): seq<string> {
    var t := TrimSpace(p);
    if t != "" then [t] else []
  }

  /** The hops on one X-Forwarded-For line. */
  function Line(h: string): seq<string> {
    FlatMap(Part, Split(h, ','))
  }

  /** All hops of all X-Forwarded-For lines, in order. */
  function Hops(headers: seq<string>): seq<string> {
    FlatMap(Line, headers)
  }

  function WalkBy(parse: string -> Option<Addr>, trusts: Addr -> bool, hops: seq<string>): Option<Addr> {
    if hops == [] then None
    else
      var a := parse(hops[|hops| - 1]);
      if a.None? then None
      else if !trusts(a.value) then a
      else WalkBy(parse, trusts, hops[..|hops| - 1])
  }

  lemma WalkSnoc(parse: string -> Option<Addr>, trusts: Addr -> bool, hops: seq<string>, x: string)
    ensures WalkBy(parse, trusts, hops + [x]) ==
            if parse(x).None? then None
            else if !trusts(parse(x).value) then parse(x)
            else WalkBy(parse, trusts, hops)
  {
    assert (hops + [x])[..|hops|] == hops;
  }

  /** From the right: skip trusted hops, stop at the first untrusted one; a malformed hop ends the walk. */
  function Walk(net: Net, hops: seq<string>): Option<Addr> {
    WalkBy(net.Parser(), net.Truster(), hops)
  }

  function Resolve(net: Net, peer: Option<Addr>, xff: seq<string>, realIp: string): Option<Addr> {
    if !net.IsTrusted(peer) then peer
    else
      var hop := Walk(net, Hops(xff));
      if hop.Some? then hop
      else if net.ParseAddr(realIp).Some? then net.ParseAddr(realIp)
      else peer
  }

  // ---------- the direct peer ----------

  /** strings.LastIndex(s, ":"), with -1 for none. */
  function LastColon(s: string): (i: int)
    ensures -1 <= i < |s|
    ensures i >= 0 ==> s[i] == ':'
    ensures forall j :: i < j < |s| ==> s[j] != ':'
  {
    if s == "" then -1
    else if s[|s| - 1] == ':' then |s| - 1
    else LastColon(s[..|s| - 1])
  }

  function StripBrackets(host: string): string {
    var h := if host != "" && host[|host| - 1] == ']' then host[..|host| - 1] else host;
    if h != "" && h[0] == '[' then h[1..] else h
  }

  /** The address part of a "host:port" RemoteAddr. */
  function PeerAddr(net: Net, remote: string): Option<Addr> {
    if remote == "" then None
    else
      var i := LastColon(remote);
      if i > 0 then net.ParseAddr(StripBrackets(remote[..i])) else net.ParseAddr(remote)
  }

  /** Both forms a listener reports, host:port and [host]:port, give the host's address. */
  lemma PeerAddrReadsHost(net: Net, host: string, port: string)
    requires host != "" && host[0] != '[' && host[|host| - 1] != ']' && ':' !in port
    ensures PeerAddr(net, host + ":" + port) == net.ParseAddr(host)
    ensures PeerAddr(net, "[" + host + "]:" + port) == net.ParseAddr(host)
    ensures ':' !in host ==> PeerAddr(net, host) == net.ParseAddr(host)
    ensures PeerAddr(net, "") == None
  {
    ColonBeforePort(host, port);
    ColonBeforePort("[" + host + "]", port);
    assert "[" + host + "]:" + port == ("[" + host + "]") + ":" + port;
    assert StripBrackets("[" + host + "]") == host;
  }

  lemma LastColonAt(s: string, k: nat)
    requires k < |s| && s[k] == ':' && forall j :: k < j < |s| ==> s[j] != ':'
    ensures LastColon(s) == k
  {
  }

  lemma HostIsPrefix(host: string, tail: string)
    ensures (host + tail)[..|host|] == host
    ensures forall j :: |host| <= j < |host| + |tail| ==> (host + tail)[j] == tail[j - |host|]
  {
  }

  lemma ColonBeforePort(host: string, port: string)
    requires ':' !in port
    ensures LastColon(host + ":" + port) == |host| && (host + ":" + port)[..|host|] == host
  {
    var tail := ":" + port;
    assert host + ":" + port == host + tail;
    HostIsPrefix(host, tail);
    assert tail[0] == ':' && forall j :: 1 <= j < |tail| ==> tail[j] != ':';
    LastColonAt(host + tail, |host|);
  }

  // ---------- the loops ----------

  method IsTrusted(net: Net, a: Option<Addr>) returns (yes: bool)
    ensures yes <==> net.IsTrusted(a)
  {
    if a.None? {
      return false;
    }
    for i := 0 to |net.trusted|
      invariant forall j :: 0 <= j < i ==> !net.trusted[j](a.value)
    {
      if net.trusted[i](a.value) {
        return true;
      }
    }
    return false;
  }

  method CollectHops(headers: seq<string>) returns (hops: seq<string>)
    ensures hops == Hops(headers)
  {
    hops := [];
    for i := 0 to |headers|
      invariant hops == Hops(headers[..i])
    {
      var more := SplitLine(headers[i]);
      hops := hops + more;
      FlatMapNext(Line, headers, i);
    }
    assert headers[..|headers|] == headers;
  }

  method SplitLine(h: string) returns (hops: seq<string>)
    ensures hops == Line(h)
  {
    var parts := Split(h, ',');
    hops := [];
    for j := 0 to |parts|
      invariant hops == FlatMap(Part, parts[..j])
    {
      var p := TrimSpace(parts[j]);
      if p != "" {
        hops := hops + [p];
      }
      FlatMapNext(Part, parts, j);
    }
    assert parts[..|parts|] == parts;
  }

  method WalkXff(net: Net, headers: seq<string>) returns (hop: Option<Addr>)
    ensures hop == Walk(net, Hops(headers))
  {
    var hops := CollectHops(headers);
    hop := WalkHops(net, hops);
  }

  lemma WalkStep(net: Net, hops: seq<string>, i: nat)
    requires 0 < i <= |hops|
    ensures var a := net.ParseAddr(hops[i - 1]);
            Walk(net, hops[..i]) ==
            if a.None? then None else if !net.Trusts(a.value) then a else Walk(net, hops[..i - 1])
  {
    WalkSnoc(net.Parser(), net.Truster(), hops[..i - 1], hops[i - 1]);
    assert hops[..i] == hops[..i - 1] + [hops[i - 1]];
  }

  method WalkHops(net: Net, hops: seq<string>) returns (hop: Option<Addr>)
    ensures hop == Walk(net, hops)
  {
    var i := |hops|;
    assert hops[..i] == hops;
    while i > 0
      invariant 0 <= i <= |hops|
      invariant Walk(net, hops) == Walk(net, hops[..i])
    {
      WalkStep(net, hops, i);
      var a := net.ParseAddr(hops[i - 1]);
      if a.None? {
        return None;
      }
      var trusted := IsTrusted(net, a);
      if !trusted {
        return a;
      }
      i := i - 1;
    }
    return None;
  }

  method TrustedProxyIp(net: Net, peer: Option<Addr>, xff: seq<string>, realIp: string)
    returns (resolved: Option<Addr>)
    ensures resolved == Resolve(net, peer, xff, realIp)
  {
    resolved := peer;
    var trusted := IsTrusted(net, peer);
    if trusted {
      var hop := WalkXff(net, xff);
      if hop.Some? {
        resolved := hop;
      } else if net.ParseAddr(realIp).Some? {
        resolved := net.ParseAddr(realIp);
      }
    }
  }

  // ---------- the walk, said without walking ----------

  /** Hop i reads as an untrusted address, and every hop after it as a trusted one. */
  predicate Stops(net: Net, hops: seq<string>, i: nat) {
    && i < |hops| && net.ParseAddr(hops[i]).Some? && !net.Trusts(net.ParseAddr(hops[i]).value)
    && forall j :: i < j < |hops| ==> net.ParseAddr(hops[j]).Some? && net.Trusts(net.ParseAddr(hops[j]).value)
  }

  /** The walk finds an address if and only if some hop stops it, and then that hop's. */
  lemma {:induction false} WalkFindsTheStop(net: Net, hops: seq<string>)
    ensures Walk(net, hops).Some? <==> exists i :: Stops(net, hops, i)
    ensures forall i: nat :: Stops(net, hops, i) ==> Walk(net, hops) == net.ParseAddr(hops[i])
  {
    if hops != [] {
      var k := |hops| - 1;
      var front := hops[..k];
      WalkSnoc(net.Parser(), net.Truster(), front, hops[k]);
      assert hops == front + [hops[k]];
      WalkFindsTheStop(net, front);
      forall i: nat | Stops(net, hops, i)
        ensures Walk(net, hops) == net.ParseAddr(hops[i])
      {
        if i < k {
          assert Stops(net, front, i);
        }
      }
      if Walk(net, hops).Some? {
        if net.Trusts(net.ParseAddr(hops[k]).value) {
          var i: nat :| Stops(net, front, i);
          assert Stops(net, hops, i);
        } else {
          assert Stops(net, hops, k);
        }
      }
    }
  }

  /**
   * Whom a request is charged to, case by case: an untrusted peer itself; the
   * hop that stops the walk; if none does - no hop at all, only trusted ones, or
   * a malformed one in the way - the X-Real-IP if it reads as an address, and
   * the peer if not.
   */
  lemma ChargedAddress(net: Net, peer: Addr, xff: seq<string>, realIp: string)
    ensures !net.Trusts(peer) ==> Resolve(net, Some(peer), xff, realIp) == Some(peer)
    ensures forall i: nat :: net.Trusts(peer) && Stops(net, Hops(xff), i) ==>
              Resolve(net, Some(peer), xff, realIp) == net.ParseAddr(Hops(xff)[i])
    ensures net.Trusts(peer) && (forall i: nat :: !Stops(net, Hops(xff), i)) ==>
              Resolve(net, Some(peer), xff, realIp) ==
              if net.ParseAddr(realIp).Some? then net.ParseAddr(realIp) else Some(peer)
  {
    WalkFindsTheStop(net, Hops(xff));
  }

  // ---------- what the client puts in front does not matter ----------

  lemma {:induction false} WalkByPrepended(parse: string -> Option<Addr>, trusts: Addr -> bool,
                                            front: seq<string>, hops: seq<string>)
    requires WalkBy(parse, trusts, hops).Some?
    ensures WalkBy(parse, trusts, front + hops) == WalkBy(parse, trusts, hops)
  {
    var k := |hops| - 1;
    assert (front + hops)[..|front + hops| - 1] == front + hops[..k];
    var a := parse(hops[k]);
    if a.Some? && trusts(a.value) {
      WalkByPrepended(parse, trusts, front, hops[..k]);
    }
  }

  /** Prepending hops never changes a successful walk. */
  lemma PrependedHopsDoNotMatter(net: Net, front: seq<string>, hops: seq<string>)
    requires Walk(net, hops).Some?
    ensures Walk(net, front + hops) == Walk(net, hops)
  {
    WalkByPrepended(net.Parser(), net.Truster(), front, hops);
  }

  /** The same for whole header lines put in front of the ones that resolve. */
  lemma PrependedLinesDoNotMatter(net: Net, front: seq<string>, xff: seq<string>)
    requires Walk(net, Hops(xff)).Some?
    ensures Walk(net, Hops(front + xff)) == Walk(net, Hops(xff))
  {
    FlatMapAppend(Line, front, xff);
    PrependedHopsDoNotMatter(net, Hops(front), Hops(xff));
  }

  // ---------- honest proxies ----------

  /** A proxy puts the address on a line of its own, or after a comma on the last line. */
  datatype Style = NewLine | SameLine(space: bool)

  function Append(xff: seq<string>, style: Style, text: string): seq<string> {
    if style.NewLine? || xff == [] then xff + [text]
    else xff[..|xff| - 1] + [xff[|xff| - 1] + "," + (if style.space then " " + text else text)]
  }

  /** What an address prints as: no comma, no surrounding space, not empty. */
  predicate Printable(text: string) {
    text != "" && ',' !in text && !IsSpace(text[0]) && !IsSpace(text[|text| - 1])
  }

  lemma PrintableTrims(text: string)
    requires Printable(text)
    ensures TrimSpace(text) == text && TrimSpace(" " + text) == text
  {
    assert TrimLeft(text) == text;
    assert (" " + text)[1..] == text;
    assert TrimLeft(" " + text) == text;
    assert TrimRight(text) == text;
  }

  lemma LineOfOne(text: string, t: string)
    requires Printable(text) && (t == text || t == " " + text)
    ensures Line(t) == [text]
  {
    PrintableTrims(text);
    SplitPlain(t, ',');
    FlatMapSnoc(Part, [], t);
    assert [] + [t] == [t];
    assert Part(t) == [text];
  }

  lemma LineAtComma(a: string, b: string)
    ensures Line(a + "," + b) == Line(a) + Line(b)
  {
    SplitAt(a, b, ',');
    FlatMapAppend(Part, Split(a, ','), Split(b, ','));
  }

  lemma NewLineAddsHop(xff: seq<string>, text: string)
    requires Printable(text)
    ensures Hops(xff + [text]) == Hops(xff) + [text]
  {
    LineOfOne(text, text);
    FlatMapSnoc(Line, xff, text);
  }

  lemma SameLineAddsHop(lines: seq<string>, last: string, text: string, t: string)
    requires Printable(text) && (t == text || t == " " + text)
    ensures Hops(lines + [last + "," + t]) == Hops(lines + [last]) + [text]
  {
    LineOfOne(text, t);
    LineAtComma(last, t);
    FlatMapGrows(Line, lines, last, last + "," + t, [text]);
  }

  lemma AppendAddsHop(xff: seq<string>, style: Style, text: string)
    requires Printable(text)
    ensures Hops(Append(xff, style, text)) == Hops(xff) + [text]
  {
    if style.NewLine? || xff == [] {
      NewLineAddsHop(xff, text);
    } else {
      var k := |xff| - 1;
      SameLineAddsHop(xff[..k], xff[k], text, if style.space then " " + text else text);
      assert xff == xff[..k] + [xff[k]];
    }
  }

  /** The fallback serves more than an empty X-Forwarded-For: a malformed last hop leads to it as well. */
  lemma MalformedHopFallsBack(net: Net, peer: Addr, xff: seq<string>, style: Style, junk: string, realIp: string)
    requires net.Trusts(peer) && Printable(junk) && net.ParseAddr(junk).None?
    ensures Resolve(net, Some(peer), Append(xff, style, junk), realIp) ==
            if net.ParseAddr(realIp).Some? then net.ParseAddr(realIp) else Some(peer)
  {
    AppendAddsHop(xff, style, junk);
    WalkSnoc(net.Parser(), net.Truster(), Hops(xff), junk);
  }

  /** Every proxy of the chain appends the address it received the request from. */
  function Forwarded(xff: seq<string>, from: seq<Addr>, styles: seq<Style>, show: Addr -> string): seq<string>
    requires |from| == |styles|
  {
    if from == [] then xff
    else
      var k := |from| - 1;
      Append(Forwarded(xff, from[..k], styles[..k], show), styles[k], show(from[k]))
  }

  predicate Readable(net: Net, show: Addr -> string, a: Addr) {
    Printable(show(a)) && net.parse(show(a)) == Some(a)
  }

  lemma {:induction false} ForwardedWalks(net: Net, show: Addr -> string, xff: seq<string>, from: seq<Addr>,
                                          styles: seq<Style>)
    requires |from| == |styles| && from != []
    requires forall i :: 0 <= i < |from| ==> Readable(net, show, from[i])
    requires !net.Trusts(from[0]) && forall i :: 1 <= i < |from| ==> net.Trusts(from[i])
    ensures Walk(net, Hops(Forwarded(xff, from, styles, show))) == Some(from[0])
  {
    var k := |from| - 1;
    var text := show(from[k]);
    var before := Forwarded(xff, from[..k], styles[..k], show);
    assert Readable(net, show, from[k]);
    AppendAddsHop(before, styles[k], text);
    PrintableTrims(text);
    WalkSnoc(net.Parser(), net.Truster(), Hops(before), text);
    if k > 0 {
      ForwardedWalks(net, show, xff, from[..k], styles[..k]);
    }
  }

  /**
   * Honest chain: peers[0] is the first untrusted peer of the chain and the
   * proxies peers[1..], the last being the direct peer, are trusted and each
   * append the address they were called from. Whatever entries, lines or
   * commas arrived from peers[0], the request is charged to peers[0].
   */
  lemma HonestChainIsCharged(net: Net, show: Addr -> string, xff: seq<string>, peers: seq<Addr>,
                             styles: seq<Style>, realIp: string)
    requires peers != [] && |styles| == |peers| - 1
    requires forall i :: 0 <= i < |peers| ==> Readable(net, show, peers[i])
    requires !net.Trusts(peers[0]) && forall i :: 1 <= i < |peers| ==> net.Trusts(peers[i])
    ensures var k := |peers| - 1;
            Resolve(net, Some(peers[k]), Forwarded(xff, peers[..k], styles, show), realIp) == Some(peers[0])
  {
    var k := |peers| - 1;
    if k > 0 {
      ForwardedWalks(net, show, xff, peers[..k], styles);
    }
  }

  /** Some request of this peer is charged to v. */
  ghost predicate CanCharge(net: Net, peer: Addr, v: Addr) {
    exists xff, realIp :: Resolve(net, Some(peer), xff, realIp) == Some(v)
  }

  /**
   * Whose bucket a peer can draw on: a trusted one anybody's, by X-Real-IP if
   * by nothing else; any other its own alone. So exactly the trusted prefixes
   * decide whose headers count.
   */
  lemma ChargesOthersIffTrusted(net: Net, show: Addr -> string, peer: Addr, v: Addr)
    requires Readable(net, show, v)
    ensures CanCharge(net, peer, v) <==> v == peer || net.Trusts(peer)
  {
    if net.Trusts(peer) {
      PrintableTrims(show(v));
      assert Resolve(net, Some(peer), [], show(v)) == Some(v);
    } else {
      assert Resolve(net, Some(peer), [], "") == Some(peer);
    }
  }
}
