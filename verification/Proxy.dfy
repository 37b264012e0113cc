/** Trusted-proxy resolution: internal/server/proxy.go. Parsing an address, a
    prefix and a host:port pair are total functions of text, given. */
module Proxy {
  import opened Options
  import opened Text
  import opened Addresses

  datatype Parsing = Parsing(
    addr: string -> Option<Addr>,      // netip.ParseAddr
    prefix: string -> Option<Prefix>,  // netip.ParsePrefix
    host: string -> Option<string>)    // net.SplitHostPort

  // ---- the trusted networks ----

  predicate Blank(entry: string) {
    TrimSpace(entry) == ""
  }

  lemma BlankIsSpace(entry: string)
    ensures Blank(entry) <==> AllSpace(entry)
  {
    TrimmedAway(entry);
  }

  predicate Parses(p: Parsing, entry: string) {
    Blank(entry) || p.prefix(TrimSpace(entry)).Some?
  }

  predicate AllParse(p: Parsing, entries: seq<string>) {
    forall i :: 0 <= i < |entries| ==> Parses(p, entries[i])
  }

  function NetworksOf(p: Parsing, entries: seq<string>): seq<Prefix>
    requires AllParse(p, entries)
  {
    if entries == [] then []
    else
      var last := entries[|entries| - 1];
      assert Parses(p, last);
      NetworksOf(p, entries[..|entries| - 1])
        + (if Blank(last) then [] else [Masked(p.prefix(TrimSpace(last)).value)])
  }

  lemma NetworksGrow(p: Parsing, entries: seq<string>, i: nat)
    requires i < |entries| && AllParse(p, entries[..i]) && Parses(p, entries[i])
    ensures AllParse(p, entries[..i + 1])
    ensures NetworksOf(p, entries[..i + 1]) == NetworksOf(p, entries[..i])
              + (if Blank(entries[i]) then [] else [Masked(p.prefix(TrimSpace(entries[i])).value)])
  {
    assert entries[..i + 1][..i] == entries[..i] && entries[..i + 1][i] == entries[i];
  }

  datatype Configured = Proxies(networks: seq<Prefix>) | BadEntry(entry: string)

  method NewTrustedProxies(p: Parsing, entries: seq<string>) returns (r: Configured)
    ensures r.Proxies? <==> AllParse(p, entries)
    ensures r.Proxies? <==>
            forall i :: 0 <= i < |entries| && !AllSpace(entries[i]) ==> p.prefix(TrimSpace(entries[i])).Some?
    ensures r.BadEntry? ==> r.entry != "" && p.prefix(r.entry).None?
    ensures r.Proxies? ==> r.networks == NetworksOf(p, entries)
    ensures r.BadEntry? ==> exists k :: 0 <= k < |entries| && !Parses(p, entries[k]) && r.entry == TrimSpace(entries[k])
                                     && AllParse(p, entries[..k])
  {
    forall i | 0 <= i < |entries| {
      BlankIsSpace(entries[i]);
    }
    var networks: seq<Prefix> := [];
    var i := 0;
    while i < |entries|
      invariant 0 <= i <= |entries|
      invariant AllParse(p, entries[..i])
      invariant networks == NetworksOf(p, entries[..i])
    {
      var trimmed := TrimSpace(entries[i]);
      if trimmed != "" {
        var prefix := p.prefix(trimmed);
        if prefix.None? {
          return BadEntry(trimmed);
        }
        networks := networks + [Masked(prefix.value)];
      }
      NetworksGrow(p, entries, i);
      i := i + 1;
    }
    assert entries[..i] == entries;
    r := Proxies(networks);
  }

  predicate Trusted(networks: seq<Prefix>, a: Addr) {
    exists i :: 0 <= i < |networks| && Contains(networks[i], a)
  }

  method Trusts(networks: seq<Prefix>, a: Addr) returns (r: bool)
    ensures r <==> Trusted(networks, a)
  {
    var i := 0;
    while i < |networks|
      invariant 0 <= i <= |networks|
      invariant forall j :: 0 <= j < i ==> !Contains(networks[j], a)
    {
      if Contains(networks[i], a) {
        return true;
      }
      i := i + 1;
    }
    r := false;
  }

  /** Entry number i names a network that contains a, read as written: with no
      host bits cleared. */
  predicate Names(p: Parsing, entries: seq<string>, i: int, a: Addr) {
    && 0 <= i < |entries| && !Blank(entries[i])
    && p.prefix(TrimSpace(entries[i])).Some?
    && Contains(p.prefix(TrimSpace(entries[i])).value, a)
  }

  lemma {:induction false} TrustedMeansNamed(p: Parsing, entries: seq<string>, a: Addr)
    requires AllParse(p, entries)
    ensures Trusted(NetworksOf(p, entries), a) <==> exists i :: Names(p, entries, i, a)
  {
    if entries != [] {
      var k := |entries| - 1;
      var front := NetworksOf(p, entries[..k]);
      TrustedMeansNamed(p, entries[..k], a);
      assert forall i :: i != k ==> (Names(p, entries, i, a) <==> Names(p, entries[..k], i, a));
      if Blank(entries[k]) {
        assert NetworksOf(p, entries) == front;
        assert !Names(p, entries, k, a);
      } else {
        var last := p.prefix(TrimSpace(entries[k])).value;
        MaskingIsIrrelevant(last, a);
        assert Names(p, entries, k, a) <==> Contains(Masked(last), a);
        var all := NetworksOf(p, entries);
        assert all == front + [Masked(last)];
        assert all[|front|] == Masked(last);
        assert forall i :: 0 <= i < |front| ==> all[i] == front[i];
      }
    }
  }

  /** Entry number i, with its host bits cleared, is the network. */
  predicate Yields(p: Parsing, entries: seq<string>, i: int, network: Prefix) {
    && 0 <= i < |entries| && !Blank(entries[i])
    && p.prefix(TrimSpace(entries[i])).Some?
    && network == Masked(p.prefix(TrimSpace(entries[i])).value)
  }

  /** The networks kept are the entries' own with their host bits cleared. */
  lemma {:induction false} NetworksAreMasked(p: Parsing, entries: seq<string>, k: nat)
    requires AllParse(p, entries) && k < |NetworksOf(p, entries)|
    ensures exists i :: Yields(p, entries, i, NetworksOf(p, entries)[k])
  {
    var n := |entries| - 1;
    if k < |NetworksOf(p, entries[..n])| {
      NetworksAreMasked(p, entries[..n], k);
      var i :| Yields(p, entries[..n], i, NetworksOf(p, entries)[k]);
      assert Yields(p, entries, i, NetworksOf(p, entries)[k]);
    } else {
      assert Parses(p, entries[n]);
      assert Yields(p, entries, n, NetworksOf(p, entries)[k]);
    }
  }

  /** Blank entries, order, repetition and surrounding space never matter: two
      lists with the same non-blank trimmed entries are accepted alike and trust
      the same addresses. */
  lemma OnlyEntriesMatter(p: Parsing, xs: seq<string>, ys: seq<string>, a: Addr)
    requires forall e :: e != "" ==> (Mentions(xs, e) <==> Mentions(ys, e))
    ensures AllParse(p, xs) <==> AllParse(p, ys)
    ensures AllParse(p, xs) ==>
              (Trusted(NetworksOf(p, xs), a) <==> Trusted(NetworksOf(p, ys), a))
  {
    MentionedParse(p, xs, ys);
    MentionedParse(p, ys, xs);
    if AllParse(p, xs) {
      TrustedMeansNamed(p, xs, a);
      TrustedMeansNamed(p, ys, a);
      MentionedNames(p, xs, ys, a);
      MentionedNames(p, ys, xs, a);
    }
  }

  /** Some entry is e once trimmed. */
  predicate Mentions(entries: seq<string>, e: string) {
    exists i :: 0 <= i < |entries| && TrimSpace(entries[i]) == e
  }

  lemma MentionedParse(p: Parsing, xs: seq<string>, ys: seq<string>)
    requires forall e :: e != "" ==> (Mentions(xs, e) ==> Mentions(ys, e))
    ensures AllParse(p, ys) ==> AllParse(p, xs)
  {
    if AllParse(p, ys) {
      forall i | 0 <= i < |xs|
        ensures Parses(p, xs[i])
      {
        var e := TrimSpace(xs[i]);
        if e != "" {
          assert Mentions(xs, e);
          var j :| 0 <= j < |ys| && TrimSpace(ys[j]) == e;
          assert Parses(p, ys[j]);
        }
      }
    }
  }

  lemma MentionedNames(p: Parsing, xs: seq<string>, ys: seq<string>, a: Addr)
    requires forall e :: e != "" ==> (Mentions(xs, e) ==> Mentions(ys, e))
    ensures (exists i :: Names(p, xs, i, a)) ==> (exists j :: Names(p, ys, j, a))
  {
    if i :| Names(p, xs, i, a) {
      var e := TrimSpace(xs[i]);
      assert Mentions(xs, e);
      var j :| 0 <= j < |ys| && TrimSpace(ys[j]) == e;
      assert Names(p, ys, j, a);
    }
  }

  // ---- the forwarded chain ----

  /** One entry of the header; None stands for the zero netip.Addr. */
  function Hop(p: Parsing, entry: string): Option<Addr> {
    match p.addr(TrimSpace(entry))
    case Some(a) => Some(Unmap(a))
    case None => None
  }

  function Hops(p: Parsing, parts: seq<string>): seq<Option<Addr>> {
    seq(|parts|, i requires 0 <= i < |parts| => Hop(p, parts[i]))
  }

  function Entries(values: seq<string>): seq<string> {
    if values == [] then [] else Split(values[0]) + Entries(values[1..])
  }

  lemma HopsOfConcat(p: Parsing, xs: seq<string>, ys: seq<string>)
    ensures Hops(p, xs + ys) == Hops(p, xs) + Hops(p, ys)
  {}

  /** The inner loop: one header line's entries. */
  method AppendHops(p: Parsing, value: string, addrs: seq<Option<Addr>>) returns (r: seq<Option<Addr>>)
    ensures r == addrs + Hops(p, Split(value))
  {
    var parts := Split(value);
    r := addrs;
    var k := 0;
    while k < |parts|
      invariant 0 <= k <= |parts|
      invariant r == addrs + Hops(p, parts)[..k]
    {
      var addr := p.addr(TrimSpace(parts[k]));
      if addr.None? {
        r := r + [None];
      } else {
        r := r + [Some(Unmap(addr.value))];
      }
      k := k + 1;
    }
  }

  /** forwardedFor as a function of the header's lines. */
  function Chain(p: Parsing, values: seq<string>): seq<Option<Addr>> {
    Hops(p, Entries(values))
  }

  lemma ChainOfLine(p: Parsing, addrs: seq<Option<Addr>>, values: seq<string>, v: nat)
    requires v < |values|
    ensures addrs + Chain(p, values[v..]) == addrs + Hops(p, Split(values[v])) + Chain(p, values[v + 1..])
  {
    var rest := values[v..];
    assert rest[0] == values[v] && rest[1..] == values[v + 1..];
    HopsOfConcat(p, Split(rest[0]), Entries(rest[1..]));
  }

  method ForwardedFor(p: Parsing, values: seq<string>) returns (addrs: seq<Option<Addr>>)
    ensures addrs == Chain(p, values)
  {
    addrs := [];
    var v := 0;
    assert values[v..] == values;
    while v < |values|
      invariant 0 <= v <= |values|
      invariant Chain(p, values) == addrs + Chain(p, values[v..])
    {
      ChainOfLine(p, addrs, values, v);
      addrs := AppendHops(p, values[v], addrs);
      v := v + 1;
    }
  }

  function CommasIn(values: seq<string>): nat {
    if values == [] then 0 else Commas(values[0]) + CommasIn(values[1..])
  }

  /** One hop per comma-separated entry: no more, none dropped. */
  lemma {:induction false} OneHopPerEntry(p: Parsing, values: seq<string>)
    ensures |Chain(p, values)| == CommasIn(values) + |values|
  {
    if values != [] {
      SplitInverts(values[0]);
      OneHopPerEntry(p, values[1..]);
    }
  }

  /** Several header lines mean what the single line joining them with commas
      means (section 5.3 of RFC 9110), provided there is a line at all. */
  lemma {:induction false} LinesJoin(values: seq<string>)
    ensures Entries([Join(values)]) == Entries(values) <==> values != []
  {
    assert [Join(values)][1..] == [];
    assert Entries([Join(values)]) == Split(Join(values));
    if |values| == 1 {
      assert values == [Join(values)];
    } else if values != [] {
      LinesJoin(values[1..]);
      assert [Join(values[1..])][1..] == [];
      assert Entries([Join(values[1..])]) == Split(Join(values[1..]));
      assert Join(values) == values[0] + "," + Join(values[1..]);
      SplitAtComma(values[0], Join(values[1..]));
    }
  }

  // ---- the walk ----

  predicate Passes(networks: seq<Prefix>, hop: Option<Addr>) {
    hop.Some? && Trusted(networks, hop.value)
  }

  predicate AllPass(networks: seq<Prefix>, hops: seq<Option<Addr>>) {
    forall i :: 0 <= i < |hops| ==> Passes(networks, hops[i])
  }

  /** The right-to-left walk over the chain from a trusted peer. */
  function Walk(networks: seq<Prefix>, hops: seq<Option<Addr>>, peer: Addr): Addr {
    if hops == [] then peer
    else
      var h := hops[|hops| - 1];
      if Passes(networks, h) then Walk(networks, hops[..|hops| - 1], peer)
      else if h.Some? then h.value
      else peer
  }

  function Peer(p: Parsing, remoteAddr: string): Option<Addr> {
    var host := p.host(remoteAddr);
    match p.addr(if host.Some? then host.value else remoteAddr)
    case Some(a) => Some(Unmap(a))
    case None => None
  }

  /** Hop k is the rightmost usable one: parseable and untrusted, with only
      parseable trusted hops to its right. */
  predicate Chosen(networks: seq<Prefix>, hops: seq<Option<Addr>>, k: int) {
    && 0 <= k < |hops| && hops[k].Some? && !Trusted(networks, hops[k].value)
    && forall j :: k < j < |hops| ==> Passes(networks, hops[j])
  }

  /** The loop of ClientIP, over the chain from the right. */
  method WalkBack(networks: seq<Prefix>, forwarded: seq<Option<Addr>>, peer: Addr) returns (r: Addr)
    ensures r == Walk(networks, forwarded, peer)
  {
    var n := |forwarded|;
    assert forwarded[..n] == forwarded;
    while n > 0
      invariant 0 <= n <= |forwarded|
      invariant Walk(networks, forwarded, peer) == Walk(networks, forwarded[..n], peer)
    {
      assert forwarded[..n][..n - 1] == forwarded[..n - 1];
      var addr := forwarded[n - 1];
      if addr.None? {
        return peer;
      }
      var trusted := Trusts(networks, addr.value);
      if !trusted {
        return addr.value;
      }
      n := n - 1;
    }
    r := peer;
  }

  /** Whom a request is attributed to, as a function; None is the empty string. */
  function Attributed(p: Parsing, networks: seq<Prefix>, remoteAddr: string, values: seq<string>): Option<Addr> {
    match Peer(p, remoteAddr)
    case None => None
    case Some(peer) => Some(if Trusted(networks, peer) then Walk(networks, Chain(p, values), peer) else peer)
  }

  /** The k-th entry of the header, surrounding space apart, is an address, and
      an untrusted one. */
  predicate UntrustedAt(p: Parsing, networks: seq<Prefix>, values: seq<string>, k: int) {
    && 0 <= k < |Entries(values)| && p.addr(TrimSpace(Entries(values)[k])).Some?
    && !Trusted(networks, Unmap(p.addr(TrimSpace(Entries(values)[k])).value))
  }

  predicate TrustedAt(p: Parsing, networks: seq<Prefix>, values: seq<string>, k: int) {
    && 0 <= k < |Entries(values)| && p.addr(TrimSpace(Entries(values)[k])).Some?
    && Trusted(networks, Unmap(p.addr(TrimSpace(Entries(values)[k])).value))
  }

  /** Entry k decides: it is an untrusted address, and all entries right of it are
      trusted ones. */
  predicate Decides(p: Parsing, networks: seq<Prefix>, values: seq<string>, k: int) {
    && UntrustedAt(p, networks, values, k)
    && forall j :: k < j < |Entries(values)| ==> TrustedAt(p, networks, values, j)
  }

  /** r is the address a request from the named peer comes from: none if the name
      is no address; the peer if it is not trusted; else the entry that decides,
      if there is one, and the peer if there is none. */
  ghost predicate ComesFrom(
      p: Parsing, networks: seq<Prefix>, peerName: string, values: seq<string>, r: Option<Addr>)
  {
    match p.addr(peerName)
    case None => r.None?
    case Some(peer) =>
      if !Trusted(networks, Unmap(peer)) then r == Some(Unmap(peer))
      else
        && (forall k :: Decides(p, networks, values, k) ==>
              r == Some(Unmap(p.addr(TrimSpace(Entries(values)[k])).value)))
        && ((forall k :: !Decides(p, networks, values, k)) ==> r == Some(Unmap(peer)))
  }

  lemma HopTells(p: Parsing, networks: seq<Prefix>, values: seq<string>, k: int)
    requires 0 <= k < |Entries(values)|
    ensures Chain(p, values)[k] == Hop(p, Entries(values)[k])
    ensures TrustedAt(p, networks, values, k) <==> Passes(networks, Chain(p, values)[k])
    ensures UntrustedAt(p, networks, values, k) <==>
            Chain(p, values)[k].Some? && !Trusted(networks, Chain(p, values)[k].value)
  {}

  lemma DecidesIsChosen(p: Parsing, networks: seq<Prefix>, values: seq<string>, k: int)
    ensures Decides(p, networks, values, k) <==> Chosen(networks, Chain(p, values), k)
    ensures Decides(p, networks, values, k) ==>
            Chain(p, values)[k].value == Unmap(p.addr(TrimSpace(Entries(values)[k])).value)
  {
    if 0 <= k < |Entries(values)| {
      forall j | k <= j < |Entries(values)| {
        HopTells(p, networks, values, j);
      }
    }
  }

  /** The walk over hops finds that address; the peer's name is the remote address
      without its port, or all of it where there is no port to split off. */
  lemma AttributionTells(p: Parsing, networks: seq<Prefix>, remoteAddr: string, values: seq<string>)
    ensures var r := Attributed(p, networks, remoteAddr, values);
      && (forall host :: p.host(remoteAddr) == Some(host) ==> ComesFrom(p, networks, host, values, r))
      && (p.host(remoteAddr).None? ==> ComesFrom(p, networks, remoteAddr, values, r))
  {
    if Peer(p, remoteAddr).Some? {
      WalkFindsChosen(networks, Chain(p, values), Peer(p, remoteAddr).value);
      forall k {
        DecidesIsChosen(p, networks, values, k);
      }
    }
  }

  /** At most one entry decides. */
  lemma OneDecides(p: Parsing, networks: seq<Prefix>, values: seq<string>, j: int, k: int)
    requires Decides(p, networks, values, j) && Decides(p, networks, values, k)
    ensures j == k
  {
    assert j < k ==> TrustedAt(p, networks, values, k);
    assert k < j ==> TrustedAt(p, networks, values, j);
  }

  method ClientIP(p: Parsing, networks: seq<Prefix>, remoteAddr: string, values: seq<string>) returns (r: Option<Addr>)
    ensures r == Attributed(p, networks, remoteAddr, values)
    ensures forall host :: p.host(remoteAddr) == Some(host) ==> ComesFrom(p, networks, host, values, r)
    ensures p.host(remoteAddr).None? ==> ComesFrom(p, networks, remoteAddr, values, r)
  {
    AttributionTells(p, networks, remoteAddr, values);
    var peer := Peer(p, remoteAddr);
    if peer.None? {
      return None;
    }
    var trusted := Trusts(networks, peer.value);
    if !trusted {
      return peer;
    }
    var forwarded := ForwardedFor(p, values);
    var chosen := WalkBack(networks, forwarded, peer.value);
    r := Some(chosen);
  }

  // ---- the theorems ----

  /** The walk yields the chosen hop if there is one, and the peer otherwise; so
      the answer is never a trusted address other than the peer. */
  lemma {:induction false} WalkFindsChosen(networks: seq<Prefix>, hops: seq<Option<Addr>>, peer: Addr)
    ensures forall k :: Chosen(networks, hops, k) ==> Walk(networks, hops, peer) == hops[k].value
    ensures (forall k :: !Chosen(networks, hops, k)) ==> Walk(networks, hops, peer) == peer
    ensures Walk(networks, hops, peer) == peer || !Trusted(networks, Walk(networks, hops, peer))
  {
    if hops != [] {
      var n := |hops| - 1;
      if Passes(networks, hops[n]) {
        WalkFindsChosen(networks, hops[..n], peer);
        assert forall k :: Chosen(networks, hops, k) ==> Chosen(networks, hops[..n], k);
        assert forall k :: Chosen(networks, hops[..n], k) ==> Chosen(networks, hops, k);
      } else {
        assert forall k :: Chosen(networks, hops, k) ==> k == n;
        assert hops[n].Some? ==> Chosen(networks, hops, n);
      }
    }
  }

  /** Walking a chain whose right part only passes hops is walking its left. */
  lemma {:induction false} WalkSkipsPassing(
      networks: seq<Prefix>, left: seq<Option<Addr>>, right: seq<Option<Addr>>, peer: Addr)
    ensures Walk(networks, left + right, peer) ==
            if AllPass(networks, right) then Walk(networks, left, peer)
            else Walk(networks, right, peer)
  {
    if right == [] {
      assert left + right == left;
    } else {
      var n := |right| - 1;
      assert (left + right)[..|left + right| - 1] == left + right[..n];
      if Passes(networks, right[n]) {
        WalkSkipsPassing(networks, left, right[..n], peer);
        assert right == right[..n] + [right[n]];
        assert AllPass(networks, right[..n]) <==> AllPass(networks, right);
      } else {
        assert !AllPass(networks, right);
      }
    }
  }

  /** An address with a zone is in no network, so nobody trusts everyone. */
  function Outsider(): Addr {
    RawAddr(V6, 0, "eth0")
  }

  /** What a client may write to the left of a chain's tail never changes the
      answer if and only if the tail holds a hop that stops the walk: one that
      is unparseable or untrusted. */
  lemma LeftIsIrrelevantExactlyWhen(networks: seq<Prefix>, tail: seq<Option<Addr>>, peer: Addr)
    requires Trusted(networks, peer)
    ensures (forall left :: Walk(networks, left + tail, peer) == Walk(networks, tail, peer))
            <==> !AllPass(networks, tail)
  {
    if !AllPass(networks, tail) {
      forall left
        ensures Walk(networks, left + tail, peer) == Walk(networks, tail, peer)
      {
        WalkSkipsPassing(networks, left, tail, peer);
      }
    } else {
      assert !Trusted(networks, Outsider());
      WalkSkipsPassing(networks, [Some(Outsider())], tail, peer);
      WalkSkipsPassing(networks, [], tail, peer);
      assert [] + tail == tail;
      assert Walk(networks, [Some(Outsider())] + tail, peer) != Walk(networks, tail, peer);
    }
  }

  lemma {:induction false} EntriesOfConcat(xs: seq<string>, ys: seq<string>)
    ensures Entries(xs + ys) == Entries(xs) + Entries(ys)
  {
    if xs == [] {
      assert xs + ys == ys;
    } else {
      assert (xs + ys)[0] == xs[0] && (xs + ys)[1..] == xs[1..] + ys;
      EntriesOfConcat(xs[1..], ys);
    }
  }

  lemma ChainOfConcat(p: Parsing, xs: seq<string>, ys: seq<string>)
    ensures Chain(p, xs + ys) == Chain(p, xs) + Chain(p, ys)
  {
    EntriesOfConcat(xs, ys);
    HopsOfConcat(p, Entries(xs), Entries(ys));
  }

  lemma EntriesOfLine(line: string)
    ensures Entries([line]) == Split(line)
  {
    assert [line][1..] == [];
  }

  /** A line written before a comma is as good as a line of its own. */
  lemma ChainOfLongerLine(p: Parsing, text: string, line: string)
    ensures Chain(p, [text + "," + line]) == Chain(p, [text]) + Chain(p, [line])
  {
    EntriesOfLine(text + "," + line);
    EntriesOfLine(text);
    EntriesOfLine(line);
    SplitAtComma(text, line);
    HopsOfConcat(p, Split(text), Split(line));
  }

  lemma Regroup<T>(a: seq<T>, b: seq<T>, c: seq<T>, d: seq<T>)
    ensures a + ((b + c) + d) == (a + b) + (c + d)
  {}

  lemma ChainOfThree(p: Parsing, lines: seq<string>, line: string, rest: seq<string>)
    ensures Chain(p, lines + ([line] + rest)) == Chain(p, lines) + (Chain(p, [line]) + Chain(p, rest))
  {
    ChainOfConcat(p, lines, [line] + rest);
    ChainOfConcat(p, [line], rest);
  }

  lemma ChainOfClientText(p: Parsing, lines: seq<string>, text: string, line: string, rest: seq<string>)
    ensures Chain(p, lines + ([text + "," + line] + rest))
            == Chain(p, lines + [text]) + Chain(p, [line] + rest)
  {
    ChainOfThree(p, lines, text + "," + line, rest);
    ChainOfLongerLine(p, text, line);
    Regroup(Chain(p, lines), Chain(p, [text]), Chain(p, [line]), Chain(p, rest));
    ChainOfConcat(p, lines, [text]);
    ChainOfConcat(p, [line], rest);
  }

  lemma ClientHopsAreIgnored(p: Parsing, networks: seq<Prefix>, remoteAddr: string,
                             forged: seq<Option<Addr>>, values: seq<string>, tail: seq<string>)
    requires Chain(p, values) == forged + Chain(p, tail)
    requires Peer(p, remoteAddr).Some? && Trusted(networks, Peer(p, remoteAddr).value)
             ==> !AllPass(networks, Chain(p, tail))
    ensures Attributed(p, networks, remoteAddr, values) == Attributed(p, networks, remoteAddr, tail)
  {
    if Peer(p, remoteAddr).Some? {
      WalkSkipsPassing(networks, forged, Chain(p, tail), Peer(p, remoteAddr).value);
    }
  }

  /** Attribution ignores whatever lines a client sends before the header's own
      tail, and whatever text it writes before a comma on the tail's first line,
      once the tail stops the walk or the peer is not trusted. */
  lemma ClientTextIsIgnored(p: Parsing, networks: seq<Prefix>, remoteAddr: string,
                            lines: seq<string>, text: string, line: string, rest: seq<string>)
    requires Peer(p, remoteAddr).Some? && Trusted(networks, Peer(p, remoteAddr).value)
             ==> !AllPass(networks, Chain(p, [line] + rest))
    ensures Attributed(p, networks, remoteAddr, lines + ([line] + rest))
            == Attributed(p, networks, remoteAddr, [line] + rest)
    ensures Attributed(p, networks, remoteAddr, lines + ([text + "," + line] + rest))
            == Attributed(p, networks, remoteAddr, [line] + rest)
  {
    var tail := [line] + rest;
    ChainOfConcat(p, lines, tail);
    ClientHopsAreIgnored(p, networks, remoteAddr, Chain(p, lines), lines + tail, tail);
    var longer := lines + ([text + "," + line] + rest);
    ChainOfClientText(p, lines, text, line, rest);
    ClientHopsAreIgnored(p, networks, remoteAddr, Chain(p, lines + [text]), longer, tail);
  }

  /** No text a client can write reads as an untrusted address. */
  ghost predicate NothingToForge(p: Parsing, networks: seq<Prefix>) {
    forall entry :: ',' !in entry && Hop(p, entry).Some? ==> Trusted(networks, Hop(p, entry).value)
  }

  lemma {:induction false} ForgedHopsNeverChosen(p: Parsing, networks: seq<Prefix>, parts: seq<string>, peer: Addr)
    requires NothingToForge(p, networks)
    requires forall i :: 0 <= i < |parts| ==> ',' !in parts[i]
    ensures Walk(networks, Hops(p, parts), peer) == peer
  {
    if parts != [] {
      var n := |parts| - 1;
      assert Hops(p, parts)[..n] == Hops(p, parts[..n]);
      assert Hops(p, parts)[n] == Hop(p, parts[n]);
      ForgedHopsNeverChosen(p, networks, parts[..n], peer);
    }
  }

  lemma {:induction false} EntriesHaveNoComma(values: seq<string>)
    ensures forall i :: 0 <= i < |Entries(values)| ==> ',' !in Entries(values)[i]
  {
    if values != [] {
      SplitInverts(values[0]);
      EntriesHaveNoComma(values[1..]);
    }
  }

  lemma {:induction false} SplitWithoutComma(s: string)
    requires ',' !in s
    ensures Split(s) == [s]
  {
    if s != "" {
      SplitWithoutComma(s[1..]);
      assert [s[0]] + s[1..] == s;
    }
  }

  /** The same, exactly: from a trusted peer no lines a client sends first can
      change the attribution if and only if the tail stops the walk, or no text
      at all would read as an untrusted address. */
  lemma ClientLinesAreIgnoredExactlyWhen(p: Parsing, networks: seq<Prefix>, remoteAddr: string, tail: seq<string>)
    requires Peer(p, remoteAddr).Some? && Trusted(networks, Peer(p, remoteAddr).value)
    ensures (forall lines ::
              Attributed(p, networks, remoteAddr, lines + tail) == Attributed(p, networks, remoteAddr, tail))
            <==> !AllPass(networks, Chain(p, tail)) || NothingToForge(p, networks)
  {
    var peer := Peer(p, remoteAddr).value;
    if !AllPass(networks, Chain(p, tail)) || NothingToForge(p, networks) {
      forall lines
        ensures Attributed(p, networks, remoteAddr, lines + tail) == Attributed(p, networks, remoteAddr, tail)
      {
        ChainOfConcat(p, lines, tail);
        WalkSkipsPassing(networks, Chain(p, lines), Chain(p, tail), peer);
        if NothingToForge(p, networks) {
          EntriesHaveNoComma(lines + tail);
          ForgedHopsNeverChosen(p, networks, Entries(lines + tail), peer);
          EntriesHaveNoComma(tail);
          ForgedHopsNeverChosen(p, networks, Entries(tail), peer);
        }
      }
    } else {
      var entry :| ',' !in entry && Hop(p, entry).Some? && !Trusted(networks, Hop(p, entry).value);
      ForgedLineWins(p, networks, remoteAddr, entry, tail);
    }
  }

  lemma ForgedLineWins(p: Parsing, networks: seq<Prefix>, remoteAddr: string, entry: string, tail: seq<string>)
    requires Peer(p, remoteAddr).Some? && Trusted(networks, Peer(p, remoteAddr).value)
    requires AllPass(networks, Chain(p, tail))
    requires ',' !in entry && Hop(p, entry).Some? && !Trusted(networks, Hop(p, entry).value)
    ensures Attributed(p, networks, remoteAddr, [entry] + tail) == Hop(p, entry)
    ensures Attributed(p, networks, remoteAddr, [entry] + tail) != Attributed(p, networks, remoteAddr, tail)
  {
    var peer := Peer(p, remoteAddr).value;
    SplitWithoutComma(entry);
    assert [entry][1..] == [];
    assert Entries([entry]) == [entry];
    assert Chain(p, [entry]) == [Hop(p, entry)];
    ChainOfConcat(p, [entry], tail);
    WalkSkipsPassing(networks, Chain(p, [entry]), Chain(p, tail), peer);
    WalkSkipsPassing(networks, [], Chain(p, tail), peer);
    assert [] + Chain(p, tail) == Chain(p, tail);
  }

  /** Trusting more networks moves the chosen hop left or gives it up for the
      peer; in particular it never turns the peer into a forwarded address. */
  lemma MoreTrustMovesLeft(fewer: seq<Prefix>, more: seq<Prefix>, hops: seq<Option<Addr>>, peer: Addr, k: int)
    requires forall a :: Trusted(fewer, a) ==> Trusted(more, a)
    requires Chosen(more, hops, k)
    ensures exists i :: k <= i && Chosen(fewer, hops, i) && Walk(fewer, hops, peer) == hops[i].value
  {
    var i := RightmostStop(fewer, hops, k);
    assert i > k ==> Passes(more, hops[i]);
    assert Chosen(fewer, hops, i);
    WalkFindsChosen(fewer, hops, peer);
  }

  lemma {:induction false} RightmostStop(networks: seq<Prefix>, hops: seq<Option<Addr>>, k: int) returns (i: int)
    requires 0 <= k < |hops| && !Passes(networks, hops[k])
    ensures k <= i < |hops| && !Passes(networks, hops[i])
    ensures forall j :: i < j < |hops| ==> Passes(networks, hops[j])
    decreases |hops|
  {
    var n := |hops| - 1;
    if Passes(networks, hops[n]) {
      i := RightmostStop(networks, hops[..n], k);
      forall j | i < j < |hops|
        ensures Passes(networks, hops[j])
      {
        assert j < n ==> hops[..n][j] == hops[j];
      }
    } else {
      i := n;
    }
  }

  /** Sending the header as several lines, as their joined line, or not at all
      instead of empty, never changes the attribution. */
  lemma LinesDoNotMatter(p: Parsing, networks: seq<Prefix>, values: seq<string>, peer: Addr)
    requires p.addr("").None?
    ensures Walk(networks, Chain(p, values), peer) == Walk(networks, Chain(p, [Join(values)]), peer)
  {
    LinesJoin(values);
    if values == [] {
      assert [Join(values)][1..] == [];
      assert Entries([Join(values)]) == [""];
      assert Hops(p, [""]) == [Hop(p, "")];
    }
  }
}
