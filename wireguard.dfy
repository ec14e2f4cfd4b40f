/**
 * The WireGuard test fixture of `tests/system/wireguard_fixture/wireguard.py`:
 * the wg-quick configuration a tunnel is created from, the `wg set ... peer`
 * command line, the quoting of an argument list for the shell, the reading
 * of `wg show <tunnel> peers` and the platform guess for a host.
 *
 * The subprocesses themselves (local or over SSH) are not modelled: each
 * command is a value, and its exit code and output are parameters.
 */
module Wireguard {
  import opened Wrappers
  import opened Text
  import opened SnacErrors

  // ---------------------------------------------------------------------------
  // The AllowedIPs value of a peer
  // ---------------------------------------------------------------------------

  /** `repr(ip)` of an `IPv4Network` whose text is `ip`. */
  function NetworkRepr(ip: string): string {
    "IPv4Network('" + ip + "')"
  }

  function Reprs(ips: seq<string>): (r: seq<string>)
    ensures |r| == |ips| && forall k :: 0 <= k < |ips| ==> r[k] == NetworkRepr(ips[k])
  {
    if |ips| == 0 then [] else [NetworkRepr(ips[0])] + Reprs(ips[1..])
  }

  /** `str(t)` of a tuple whose items have the given reprs: `(a, b)`, `(a,)`, `()`. */
  function TupleText(reprs: seq<string>): (r: string)
    ensures |r| >= 2 && r[0] == '('
  {
    "(" + Join(reprs, ", ") + (if |reprs| == 1 then "," else "") + ")"
  }

  /** The characters of `s`, each as a string of its own (iterating over a `str`). */
  function Chars(s: string): (r: seq<string>)
    ensures |r| == |s| && forall k :: 0 <= k < |s| ==> r[k] == [s[k]]
  {
    if |s| == 0 then [] else [[s[0]]] + Chars(s[1..])
  }

  /**
   * The AllowedIPs value as `__str__` writes it: `", ".join` applied to the
   * text of the tuple of networks, so to its characters one by one.
   */
  function AllowedIpsAsWritten(ips: seq<string>): (r: string)
    ensures |r| > 0 && r[0] == '('
  {
    Join(Chars(TupleText(Reprs(ips))), ", ")
  }

  /** The AllowedIPs value meant: the networks' texts separated by `", "`. */
  function AllowedIps(ips: seq<string>): (r: string)
    ensures CleanList(ips) ==> ListItems(r) == ips
  {
    AllowedIpsReadBack(ips);
    Join(ips, ", ")
  }

  /** How wg-quick reads a list value: split at the commas, whitespace stripped from each item. */
  function ListItems(value: string): (r: seq<string>)
    ensures |r| == |Split(value, ',')|
  {
    Strips(Split(value, ','))
  }

  function Strips(ss: seq<string>): (r: seq<string>)
    ensures |r| == |ss| && forall k :: 0 <= k < |ss| ==> r[k] == Strip(ss[k])
  {
    if |ss| == 0 then [] else [Strip(ss[0])] + Strips(ss[1..])
  }

  /** A non-empty list of networks each of which reads back unchanged. */
  predicate CleanList(ips: seq<string>) {
    |ips| >= 1 && forall k :: 0 <= k < |ips| ==> CleanItem(ips[k])
  }

  /** A network's text as a list item: not empty, no comma, no whitespace at either end. */
  predicate CleanItem(ip: string) {
    |ip| > 0 && ',' !in ip && !IsSpace(ip[0]) && !IsSpace(ip[|ip| - 1])
  }

  /**
   * As written, the first item wg-quick reads from the AllowedIPs value is
   * `(`, whatever the networks: the value is the tuple's text spelt out
   * character by character.
   */
  lemma AllowedIpsAsWrittenUnreadable(ips: seq<string>)
    ensures ListItems(AllowedIpsAsWritten(ips))[0] == "("
  {
    var t := TupleText(Reprs(ips));
    var cs := Chars(t);
    var rest := Join(cs[1..], ", ");
    assert AllowedIpsAsWritten(ips) == "(" + [','] + (" " + rest);
    SplitAppendLine("(", " " + rest, ',');
    StripSelf("(");
  }

  /** `Join(ips, ", ")` is `Join` with `","` of the items after the first preceded by a space. */
  function Spaced(ips: seq<string>): (r: seq<string>)
    requires |ips| >= 1
    ensures |r| == |ips| && r[0] == ips[0] && forall k :: 1 <= k < |ips| ==> r[k] == " " + ips[k]
  {
    [ips[0]] + Reprefixed(ips[1..])
  }

  function Reprefixed(ips: seq<string>): (r: seq<string>)
    ensures |r| == |ips| && forall k :: 0 <= k < |ips| ==> r[k] == " " + ips[k]
  {
    if |ips| == 0 then [] else [" " + ips[0]] + Reprefixed(ips[1..])
  }

  lemma {:induction false} JoinSpaced(ips: seq<string>)
    requires |ips| >= 1
    ensures Join(ips, ", ") == Join(Spaced(ips), ",")
  {
    if |ips| > 1 {
      JoinSpaced(ips[1..]);
      var tail := Spaced(ips[1..]);
      var rest := Reprefixed(ips[2..]);
      assert Spaced(ips)[1..] == [" " + ips[1]] + rest;
      assert tail == [ips[1]] + rest;
      JoinHeadPrefix(ips[1], rest);
      assert Join(ips, ", ") == ips[0] + ", " + Join(ips[1..], ", ");
      assert Join(Spaced(ips), ",") == ips[0] + "," + Join(Spaced(ips)[1..], ",");
    }
  }

  /** Putting a space before the first item puts one before the whole join. */
  lemma JoinHeadPrefix(first: string, rest: seq<string>)
    ensures Join([" " + first] + rest, ",") == " " + Join([first] + rest, ",")
  {
    if |rest| > 0 {
      assert ([" " + first] + rest)[1..] == rest;
      assert ([first] + rest)[1..] == rest;
    }
  }

  lemma StripSpacedItem(ip: string)
    requires CleanItem(ip)
    ensures Strip(" " + ip) == ip && Strip(ip) == ip
  {
    assert AllSpace(" ") && AllSpace("");
    assert " " + ip + "" == " " + ip;
    StripAround(" ", ip, "");
    StripSelf(ip);
  }

  lemma SpacedLacksComma(ips: seq<string>)
    requires |ips| >= 1 && forall k :: 0 <= k < |ips| ==> CleanItem(ips[k])
    ensures forall k :: 0 <= k < |ips| ==> ',' !in Spaced(ips)[k]
  {
    var sp := Spaced(ips);
    forall k | 0 <= k < |sp|
      ensures ',' !in sp[k]
    {
      if k > 0 {
        assert sp[k] == " " + ips[k];
      }
    }
  }

  /** Stripping the spaced items gives back the networks. */
  lemma StripsSpaced(ips: seq<string>)
    requires |ips| >= 1 && forall k :: 0 <= k < |ips| ==> CleanItem(ips[k])
    ensures Strips(Spaced(ips)) == ips
  {
    var sp := Spaced(ips);
    forall k | 0 <= k < |sp|
      ensures Strip(sp[k]) == ips[k]
    {
      StripSpacedItem(ips[k]);
    }
    StripsPointwise(sp, ips);
  }

  /** The value meant reads back as the networks themselves, in order. */
  lemma AllowedIpsReadBack(ips: seq<string>)
    ensures CleanList(ips) ==> ListItems(Join(ips, ", ")) == ips
  {
    if CleanList(ips) {
      var sp := Spaced(ips);
      JoinSpaced(ips);
      SpacedLacksComma(ips);
      SplitJoin(sp, ',');
      StripsSpaced(ips);
    }
  }

  // ---------------------------------------------------------------------------
  // `WireguardQuickConfig`
  // ---------------------------------------------------------------------------

  /** `Peer(public_key, allowed_ips)`: a public key and the texts of its networks. */
  datatype Peer = Peer(publicKey: string, allowedIps: seq<string>)

  /** `f"{x}"` of an optional text: Python writes a missing one as `None`. */
  function OrNone(x: Option<string>): string {
    if x.Some? then x.value else "None"
  }

  /** `if self.listen_port:`: neither a missing port nor port 0 is written. */
  predicate PortSet(port: Option<int>) {
    port.Some? && port.value != 0
  }

  function AddressLines(addresses: seq<string>): (r: seq<string>)
    ensures |r| == |addresses|
  {
    if |addresses| == 0 then [] else ["Address = " + addresses[0]] + AddressLines(addresses[1..])
  }

  /** One `Address` line per address, in order. */
  lemma {:induction false} AddressLinesAt(addresses: seq<string>, k: nat)
    requires k < |addresses|
    ensures AddressLines(addresses)[k] == "Address = " + addresses[k]
  {
    if k > 0 {
      AddressLinesAt(addresses[1..], k - 1);
    }
  }

  lemma {:induction false} AddressLinesAppend(addresses: seq<string>, address: string)
    ensures AddressLines(addresses + [address]) == AddressLines(addresses) + ["Address = " + address]
  {
    if |addresses| > 0 {
      assert (addresses + [address])[1..] == addresses[1..] + [address];
      AddressLinesAppend(addresses[1..], address);
    }
  }

  /** The three lines of one peer; the first opens its section after a blank line. */
  function PeerSection(peer: Peer): (r: seq<string>)
    ensures |r| == 3 && r[0] == "\n[Peer]" && r[1] == "PublicKey = " + peer.publicKey
  {
    ["\n[Peer]", "PublicKey = " + peer.publicKey, "AllowedIPs = " + AllowedIps(peer.allowedIps)]
  }

  /** The third line of a peer section reads back as the peer's networks. */
  lemma PeerAllowedIps(peer: Peer)
    requires CleanList(peer.allowedIps)
    ensures |PeerSection(peer)[2]| >= 13 && PeerSection(peer)[2][..13] == "AllowedIPs = "
    ensures ListItems(PeerSection(peer)[2][13..]) == peer.allowedIps
  {
    var value := AllowedIps(peer.allowedIps);
    assert ("AllowedIPs = " + value)[13..] == value;
  }

  function PeerLines(peers: seq<Peer>): (r: seq<string>)
    ensures |r| == 3 * |peers|
  {
    if |peers| == 0 then [] else PeerSection(peers[0]) + PeerLines(peers[1..])
  }

  /** The lines of the i-th peer are the i-th group of three. */
  lemma {:induction false} PeerLinesSection(peers: seq<Peer>, i: nat)
    requires i < |peers|
    ensures PeerLines(peers)[3 * i..3 * i + 3] == PeerSection(peers[i])
  {
    if i > 0 {
      PeerLinesSection(peers[1..], i - 1);
      var rest := PeerLines(peers[1..]);
      assert PeerLines(peers)[3 * i..3 * i + 3] == rest[3 * (i - 1)..3 * (i - 1) + 3];
    }
  }

  /** The lines of one more peer follow those of the peers before it. */
  lemma {:induction false} PeerLinesAppend(peers: seq<Peer>, peer: Peer)
    ensures PeerLines(peers + [peer]) == PeerLines(peers) + PeerSection(peer)
  {
    if |peers| == 0 {
      assert PeerLines([peer]) == PeerSection(peer) + PeerLines([]);
    } else {
      assert (peers + [peer])[1..] == peers[1..] + [peer];
      PeerLinesAppend(peers[1..], peer);
    }
  }

  /** The `[Interface]` section. */
  function InterfaceLines(addresses: seq<string>, privateKey: Option<string>, listenPort: Option<int>): seq<string> {
    ["[Interface]"] + AddressLines(addresses) + ["PrivateKey = " + OrNone(privateKey)] +
    (if PortSet(listenPort) then ["ListenPort = " + IntToString(listenPort.value)] else [])
  }

  /** The lines `__str__` joins with newlines. */
  function ConfigLines(addresses: seq<string>, privateKey: Option<string>, listenPort: Option<int>,
                       peers: seq<Peer>): seq<string> {
    InterfaceLines(addresses, privateKey, listenPort) + PeerLines(peers)
  }

  /** The `[Interface]` section's lines, by position. */
  lemma InterfaceLayout(addresses: seq<string>, privateKey: Option<string>, listenPort: Option<int>)
    ensures var ls := InterfaceLines(addresses, privateKey, listenPort);
      var n := |addresses|;
      |ls| == n + 2 + (if PortSet(listenPort) then 1 else 0) &&
      ls[0] == "[Interface]" &&
      (forall k :: 0 <= k < n ==> ls[1 + k] == "Address = " + addresses[k]) &&
      ls[n + 1] == "PrivateKey = " + OrNone(privateKey) &&
      (PortSet(listenPort) ==> ls[n + 2] == "ListenPort = " + IntToString(listenPort.value))
  {
    var addressLines := AddressLines(addresses);
    var keyLine := "PrivateKey = " + OrNone(privateKey);
    var port := if PortSet(listenPort) then ["ListenPort = " + IntToString(listenPort.value)] else [];
    var pre := ["[Interface]"] + addressLines + [keyLine];
    var ls := InterfaceLines(addresses, privateKey, listenPort);
    assert ls == pre + port;
    forall k | 0 <= k < |addresses|
      ensures ls[1 + k] == "Address = " + addresses[k]
    {
      AddressLinesAt(addresses, k);
      assert ls[1 + k] == pre[1 + k] == addressLines[k];
    }
  }

  /**
   * The configuration's lines: the `[Interface]` section as laid out by
   * `InterfaceLayout`, then three lines per peer in the order added.
   */
  lemma ConfigLayout(addresses: seq<string>, privateKey: Option<string>, listenPort: Option<int>, peers: seq<Peer>)
    ensures var ls := ConfigLines(addresses, privateKey, listenPort, peers);
      var head := InterfaceLines(addresses, privateKey, listenPort);
      |ls| == |head| + 3 * |peers| && ls[..|head|] == head &&
      (forall i :: 0 <= i < |peers| ==> ls[|head| + 3 * i..|head| + 3 * i + 3] == PeerSection(peers[i]))
  {
    var head := InterfaceLines(addresses, privateKey, listenPort);
    var tail := PeerLines(peers);
    assert ConfigLines(addresses, privateKey, listenPort, peers) == head + tail;
    PrefixOf(head, tail);
    forall i | 0 <= i < |peers|
      ensures (head + tail)[|head| + 3 * i..|head| + 3 * i + 3] == PeerSection(peers[i])
    {
      PeerLinesSection(peers, i);
      SliceAfter(head, tail, 3 * i, 3 * i + 3);
    }
  }

  lemma PrefixOf(a: seq<string>, b: seq<string>)
    ensures (a + b)[..|a|] == a
  {
  }

  lemma AppendAssoc(a: seq<string>, b: seq<string>, c: seq<string>)
    ensures a + b + c == a + (b + c)
  {
  }

  lemma SliceAfter(a: seq<string>, b: seq<string>, i: nat, j: nat)
    requires i <= j <= |b|
    ensures (a + b)[|a| + i..|a| + j] == b[i..j]
  {
  }

  /** Whether a line sets the listen port. */
  predicate IsPortLine(line: string) {
    |line| > 0 && line[0] == 'L'
  }

  predicate NoPortLine(ls: seq<string>) {
    forall k :: 0 <= k < |ls| ==> !IsPortLine(ls[k])
  }

  lemma {:induction false} AddressLinesNoPort(addresses: seq<string>)
    ensures NoPortLine(AddressLines(addresses))
  {
    if |addresses| > 0 {
      AddressLinesNoPort(addresses[1..]);
      var line := "Address = " + addresses[0];
      assert line[0] == 'A';
    }
  }

  lemma {:induction false} PeerLinesNoPort(peers: seq<Peer>)
    ensures NoPortLine(PeerLines(peers))
  {
    if |peers| > 0 {
      PeerLinesNoPort(peers[1..]);
      var section := PeerSection(peers[0]);
      assert section[0][0] == '\n' && section[1][0] == 'P' && section[2][0] == 'A';
    }
  }

  /** A `ListenPort` line is written exactly when the port is set and not 0, and then only once. */
  lemma ListenPortOnlyWhenSet(addresses: seq<string>, privateKey: Option<string>, listenPort: Option<int>, peers: seq<Peer>)
    ensures var ls := ConfigLines(addresses, privateKey, listenPort, peers);
      (forall k :: 0 <= k < |ls| && IsPortLine(ls[k]) ==> PortSet(listenPort) && k == |addresses| + 2) &&
      (PortSet(listenPort) ==> IsPortLine(ls[|addresses| + 2]))
  {
    var addressLines := AddressLines(addresses);
    var keyLine := "PrivateKey = " + OrNone(privateKey);
    var port := if PortSet(listenPort) then ["ListenPort = " + IntToString(listenPort.value)] else [];
    var pre := ["[Interface]"] + addressLines + [keyLine];
    var tail := PeerLines(peers);
    var ls := ConfigLines(addresses, privateKey, listenPort, peers);
    assert ls == pre + port + tail;
    AddressLinesNoPort(addresses);
    PeerLinesNoPort(peers);
    assert "[Interface]"[0] == '[' && keyLine[0] == 'P';
    assert NoPortLine(pre);
    forall k | 0 <= k < |ls| && !(|pre| <= k < |pre| + |port|)
      ensures !IsPortLine(ls[k])
    {
      if k < |pre| {
        assert ls[k] == pre[k];
      } else if k >= |pre| + |port| {
        assert ls[k] == tail[k - |pre| - |port|];
      }
    }
  }

  /** `WireguardQuickConfig`: a wg-quick configuration whose peers are added one by one. */
  class QuickConfig {
    var addresses: seq<string>
    var peers: seq<Peer>
    var privateKey: Option<string>
    var listenPort: Option<int>

    constructor(addresses: seq<string>, listenPort: Option<int>, privateKey: Option<string>)
      ensures this.addresses == addresses && this.listenPort == listenPort && this.privateKey == privateKey
      ensures peers == []
    {
      this.addresses := addresses;
      this.peers := [];
      this.privateKey := privateKey;
      this.listenPort := listenPort;
    }

    /** `add_peer(public_key, *allowed_ips)`: one more peer, at the end; nothing else changes. */
    method AddPeer(publicKey: string, allowedIps: seq<string>)
      modifies this
      ensures peers == old(peers) + [Peer(publicKey, allowedIps)]
      ensures addresses == old(addresses) && privateKey == old(privateKey) && listenPort == old(listenPort)
    {
      peers := peers + [Peer(publicKey, allowedIps)];
    }

    /** `__str__`: the lines built up one by one, joined with newlines. */
    method Render() returns (s: string)
      ensures s == Join(ConfigLines(addresses, privateKey, listenPort, peers), "\n")
    {
      var lines := ["[Interface]"];
      var i := 0;
      while i < |addresses|
        invariant 0 <= i <= |addresses|
        invariant lines == ["[Interface]"] + AddressLines(addresses[..i])
      {
        lines := lines + ["Address = " + addresses[i]];
        assert addresses[..i + 1] == addresses[..i] + [addresses[i]];
        AddressLinesAppend(addresses[..i], addresses[i]);
        AppendAssoc(["[Interface]"], AddressLines(addresses[..i]), ["Address = " + addresses[i]]);
        i := i + 1;
      }
      assert addresses[..i] == addresses;
      lines := lines + ["PrivateKey = " + OrNone(privateKey)];
      if PortSet(listenPort) {
        lines := lines + ["ListenPort = " + IntToString(listenPort.value)];
      }
      assert lines == InterfaceLines(addresses, privateKey, listenPort) + PeerLines([]);
      var j := 0;
      while j < |peers|
        invariant 0 <= j <= |peers|
        invariant lines == InterfaceLines(addresses, privateKey, listenPort) + PeerLines(peers[..j])
      {
        var peer := peers[j];
        lines := lines + ["\n[Peer]", "PublicKey = " + peer.publicKey, "AllowedIPs = " + AllowedIps(peer.allowedIps)];
        assert peers[..j + 1] == peers[..j] + [peer];
        PeerLinesAppend(peers[..j], peer);
        AppendAssoc(InterfaceLines(addresses, privateKey, listenPort), PeerLines(peers[..j]), PeerSection(peer));
        j := j + 1;
      }
      assert peers[..j] == peers;
      s := Join(lines, "\n");
    }
  }

  /** Adding a peer adds its three lines at the end of the configuration and changes no other line. */
  lemma AddPeerAppendsSection(addresses: seq<string>, privateKey: Option<string>, listenPort: Option<int>,
                              peers: seq<Peer>, peer: Peer)
    ensures ConfigLines(addresses, privateKey, listenPort, peers + [peer]) ==
            ConfigLines(addresses, privateKey, listenPort, peers) + PeerSection(peer)
  {
    PeerLinesAppend(peers, peer);
  }

  // ---------------------------------------------------------------------------
  // `WireguardClient.add_peer`: the `wg set <tunnel> peer ...` arguments
  // ---------------------------------------------------------------------------

  /** The optional arguments of `add_peer` besides the tunnel and the public key. */
  datatype PeerSettings = PeerSettings(
    allowedIps: seq<string>,
    endpoint: Option<string>,
    keepalive: Option<int>,
    presharedKey: Option<string>)

  /** A text argument is given when it is present and not empty (Python truthiness). */
  predicate Given(x: Option<string>) {
    x.Some? && |x.value| > 0
  }

  /** The options of `wg set ... peer`. */
  datatype PeerOption = AllowedIpsOption | KeepaliveOption | EndpointOption | PresharedKeyOption

  /** The option's name on the command line. */
  function OptionName(o: PeerOption): string {
    match o
    case AllowedIpsOption => "allowed-ips"
    case KeepaliveOption => "persistent-keepalive"
    case EndpointOption => "endpoint"
    case PresharedKeyOption => "preshared-key"
  }

  lemma OptionNameInjective(o: PeerOption, p: PeerOption)
    ensures OptionName(o) == OptionName(p) ==> o == p
  {
    if o != p {
      var n, m := OptionName(o), OptionName(p);
      assert n[0] != m[0] || |n| != |m|;
    }
  }

  /** The options in the order `add_peer` writes them. */
  const OptionOrder: seq<PeerOption> := [AllowedIpsOption, KeepaliveOption, EndpointOption, PresharedKeyOption]

  /** The value each option should carry, or `None` when it is to be left out. */
  function Setting(s: PeerSettings, o: PeerOption): Option<string> {
    match o
    case AllowedIpsOption => if |s.allowedIps| > 0 then Some(Join(s.allowedIps, ",")) else None
    case KeepaliveOption =>
      if s.keepalive.Some? && s.keepalive.value != 0 then Some(IntToString(s.keepalive.value)) else None
    case EndpointOption => if Given(s.endpoint) then s.endpoint else None
    case PresharedKeyOption => if Given(s.presharedKey) then s.presharedKey else None
  }

  /** The names of the options of `order` that are set, in that order. */
  function SetNames(order: seq<PeerOption>, s: PeerSettings): seq<string> {
    if |order| == 0 then []
    else (if Setting(s, order[0]).Some? then [OptionName(order[0])] else []) + SetNames(order[1..], s)
  }

  /** The value following the first occurrence of `name` as an option name in `opts`. */
  function OptionValue(opts: seq<string>, name: string): Option<string> {
    if |opts| < 2 then None
    else if opts[0] == name then Some(opts[1])
    else OptionValue(opts[2..], name)
  }

  /** The option names of `opts`, read two words at a time. */
  function OptionNames(opts: seq<string>): seq<string> {
    if |opts| < 2 then [] else [opts[0]] + OptionNames(opts[2..])
  }

  lemma {:induction false} OptionsConcat(a: seq<string>, b: seq<string>)
    requires |a| % 2 == 0
    ensures OptionNames(a + b) == OptionNames(a) + OptionNames(b)
    ensures forall name :: (OptionValue(a + b, name) ==
      (if OptionValue(a, name).Some? then OptionValue(a, name) else OptionValue(b, name)))
  {
    if |a| == 0 {
      assert a + b == b;
    } else {
      assert (a + b)[2..] == a[2..] + b;
      OptionsConcat(a[2..], b);
    }
  }

  /** One option as two words, or nothing when it is not set. */
  function OptionWords(s: PeerSettings, o: PeerOption): seq<string> {
    if Setting(s, o).Some? then [OptionName(o), Setting(s, o).value] else []
  }

  lemma OptionWordsNames(s: PeerSettings, o: PeerOption)
    ensures OptionNames(OptionWords(s, o)) == (if Setting(s, o).Some? then [OptionName(o)] else [])
  {
    var w := OptionWords(s, o);
    if Setting(s, o).Some? {
      assert w[2..] == [];
    }
  }

  lemma OptionWordsValues(s: PeerSettings, o: PeerOption)
    ensures forall p :: OptionValue(OptionWords(s, o), OptionName(p)) == (if p == o then Setting(s, o) else None)
  {
    var w := OptionWords(s, o);
    if Setting(s, o).Some? {
      assert w[2..] == [];
    }
    forall p
      ensures OptionValue(w, OptionName(p)) == (if p == o then Setting(s, o) else None)
    {
      OptionNameInjective(o, p);
    }
  }

  /** The words of the options of `order` that are set, each as its name and its value. */
  function OptionsFrom(order: seq<PeerOption>, s: PeerSettings): (r: seq<string>)
    ensures |r| % 2 == 0
  {
    if |order| == 0 then [] else OptionWords(s, order[0]) + OptionsFrom(order[1..], s)
  }

  /** `set_args`: the public key, then each option that is set as a name and a value. */
  function PeerArgs(publicKey: string, s: PeerSettings): (r: seq<string>)
    ensures |r| >= 1 && r[0] == publicKey && |r| % 2 == 1
  {
    [publicKey] + OptionsFrom(OptionOrder, s)
  }

  predicate Distinct(order: seq<PeerOption>) {
    forall i, j :: 0 <= i < j < |order| ==> order[i] != order[j]
  }

  /** Reading back the words of distinct options: each option has its value if listed and set, else none. */
  lemma {:induction false} OptionsFromRead(order: seq<PeerOption>, s: PeerSettings)
    requires Distinct(order)
    ensures OptionNames(OptionsFrom(order, s)) == SetNames(order, s)
    ensures forall o :: OptionValue(OptionsFrom(order, s), OptionName(o)) == (if o in order then Setting(s, o) else None)
  {
    if |order| > 0 {
      var w := OptionWords(s, order[0]);
      var rest := OptionsFrom(order[1..], s);
      assert Distinct(order[1..]) by {
        forall i, j | 0 <= i < j < |order[1..]|
          ensures order[1..][i] != order[1..][j]
        {
          assert order[1..][i] == order[i + 1] && order[1..][j] == order[j + 1];
        }
      }
      OptionsFromRead(order[1..], s);
      OptionsConcat(w, rest);
      OptionWordsNames(s, order[0]);
      OptionWordsValues(s, order[0]);
      forall o
        ensures OptionValue(w + rest, OptionName(o)) == (if o in order then Setting(s, o) else None)
      {
        if o == order[0] {
          assert o !in order[1..] by {
            forall j | 0 <= j < |order[1..]|
              ensures order[1..][j] != o
            {
              assert order[1..][j] == order[j + 1];
            }
          }
        } else {
          assert (o in order) == (o in order[1..]) by {
            assert order == [order[0]] + order[1..];
          }
        }
      }
    }
  }

  /**
   * Reading the arguments back: every option carries the value it should and
   * is present only when it should be, and the options that are present come
   * in the fixed order allowed-ips, persistent-keepalive, endpoint, preshared-key.
   */
  lemma PeerArgsReadBack(publicKey: string, s: PeerSettings)
    ensures var opts := PeerArgs(publicKey, s)[1..];
      (forall o :: OptionValue(opts, OptionName(o)) == Setting(s, o)) &&
      OptionNames(opts) == SetNames(OptionOrder, s)
  {
    assert Distinct(OptionOrder);
    OptionsFromRead(OptionOrder, s);
    assert PeerArgs(publicKey, s)[1..] == OptionsFrom(OptionOrder, s);
    forall o
      ensures o in OptionOrder
    {
      match o
      case AllowedIpsOption => assert OptionOrder[0] == o;
      case KeepaliveOption => assert OptionOrder[1] == o;
      case EndpointOption => assert OptionOrder[2] == o;
      case PresharedKeyOption => assert OptionOrder[3] == o;
    }
  }

  /** The options of `OptionOrder`, one at a time. */
  lemma OptionsOfFour(s: PeerSettings)
    ensures OptionsFrom(OptionOrder, s) ==
      OptionWords(s, AllowedIpsOption) + OptionWords(s, KeepaliveOption) +
      OptionWords(s, EndpointOption) + OptionWords(s, PresharedKeyOption)
  {
    var o3 := [PresharedKeyOption];
    var o2 := [EndpointOption] + o3;
    var o1 := [KeepaliveOption] + o2;
    assert OptionOrder == [AllowedIpsOption] + o1;
    assert o3[1..] == [] && o2[1..] == o3 && o1[1..] == o2 && OptionOrder[1..] == o1;
    var a, k, e, p := OptionWords(s, AllowedIpsOption), OptionWords(s, KeepaliveOption),
                      OptionWords(s, EndpointOption), OptionWords(s, PresharedKeyOption);
    assert OptionsFrom(o3, s) == p + OptionsFrom([], s);
    assert OptionsFrom(o2, s) == e + OptionsFrom(o3, s);
    assert OptionsFrom(o1, s) == k + OptionsFrom(o2, s);
    assert OptionsFrom(OptionOrder, s) == a + OptionsFrom(o1, s);
    Associate4(a, k, e, p);
  }

  lemma Associate4(a: seq<string>, k: seq<string>, e: seq<string>, p: seq<string>)
    ensures a + (k + (e + (p + []))) == a + k + e + p
  {
    assert p + [] == p;
  }

  lemma Associate(h: seq<string>, a: seq<string>, k: seq<string>, e: seq<string>, p: seq<string>)
    ensures h + (a + k + e + p) == h + a + k + e + p
  {
  }

  /** `add_peer`'s `set_args`, grown option by option. */
  method SetArgs(publicKey: string, s: PeerSettings) returns (args: seq<string>)
    ensures args == PeerArgs(publicKey, s)
  {
    args := [publicKey];
    if |s.allowedIps| > 0 {
      args := args + ["allowed-ips", Join(s.allowedIps, ",")];
    }
    ghost var a := OptionWords(s, AllowedIpsOption);
    assert args == [publicKey] + a;
    if s.keepalive.Some? && s.keepalive.value != 0 {
      args := args + ["persistent-keepalive", IntToString(s.keepalive.value)];
    }
    ghost var k := OptionWords(s, KeepaliveOption);
    assert args == [publicKey] + a + k;
    if Given(s.endpoint) {
      args := args + ["endpoint", s.endpoint.value];
    }
    ghost var e := OptionWords(s, EndpointOption);
    assert args == [publicKey] + a + k + e;
    if Given(s.presharedKey) {
      args := args + ["preshared-key", s.presharedKey.value];
    }
    ghost var p := OptionWords(s, PresharedKeyOption);
    assert args == [publicKey] + a + k + e + p;
    OptionsOfFour(s);
    Associate([publicKey], a, k, e, p);
  }

  /** The command line `add_peer` runs. */
  function WgSetCommand(tunnel: string, args: seq<string>): string {
    "wg set " + tunnel + " peer " + Join(args, " ")
  }

  /** `check_returncode()`: a non-zero exit status raises `CalledProcessError`. */
  function CheckReturncode(command: string, exit: int): (r: Result<(), Failure>)
    ensures r.Ok? <==> exit == 0
  {
    if exit != 0 then Err(CalledProcessError([command], exit)) else Ok(())
  }

  /** `WireguardClient.add_peer`: builds the command, runs it (its exit status is a parameter) and checks it. */
  method ClientAddPeer(tunnel: string, publicKey: string, s: PeerSettings, exit: int)
    returns (command: string, r: Result<(), Failure>)
    ensures command == WgSetCommand(tunnel, PeerArgs(publicKey, s))
    ensures r.Ok? <==> exit == 0
    ensures r.Err? ==> r.error == CalledProcessError([command], exit)
  {
    var args := SetArgs(publicKey, s);
    command := "wg set " + tunnel + " peer " + Join(args, " ");
    r := CheckReturncode(command, exit);
  }

  /** No word of `words` holds `c`. */
  predicate Lacks(words: seq<string>, c: char) {
    forall k :: 0 <= k < |words| ==> c !in words[k]
  }

  /** Joining `[w] + rest` puts `w` and a separator before the join of `rest`. */
  lemma JoinCons(w: string, rest: seq<string>, sep: string)
    requires |rest| >= 1
    ensures Join([w] + rest, sep) == w + sep + Join(rest, sep)
  {
    assert ([w] + rest)[1..] == rest;
  }

  /**
   * When the tunnel name and every argument are free of spaces, the shell
   * splits the command back into `wg`, `set`, the tunnel, `peer` and the
   * arguments, in order.
   */
  lemma WgSetCommandWords(tunnel: string, args: seq<string>)
    requires |args| >= 1 && ' ' !in tunnel && Lacks(args, ' ')
    ensures Split(WgSetCommand(tunnel, args), ' ') == ["wg", "set", tunnel, "peer"] + args
  {
    var words := ["wg", "set", tunnel, "peer"] + args;
    JoinCons("peer", args, " ");
    JoinCons(tunnel, ["peer"] + args, " ");
    JoinCons("set", [tunnel, "peer"] + args, " ");
    JoinCons("wg", ["set", tunnel, "peer"] + args, " ");
    assert [tunnel] + (["peer"] + args) == [tunnel, "peer"] + args;
    assert ["set"] + ([tunnel, "peer"] + args) == ["set", tunnel, "peer"] + args;
    assert ["wg"] + (["set", tunnel, "peer"] + args) == words;
    assert Join(words, " ") == WgSetCommand(tunnel, args);
    assert forall k :: 0 <= k < 4 ==> ' ' !in words[k];
    assert forall k :: 4 <= k < |words| ==> words[k] == args[k - 4];
    SplitJoin(words, ' ');
  }

  /** With the builder's arguments: the public key is the fifth word, the options follow. */
  lemma AddPeerCommandWords(tunnel: string, publicKey: string, s: PeerSettings)
    requires ' ' !in tunnel && Lacks(PeerArgs(publicKey, s), ' ')
    ensures var words := Split(WgSetCommand(tunnel, PeerArgs(publicKey, s)), ' ');
      |words| >= 5 && words[4] == publicKey &&
      (forall o :: OptionValue(words[5..], OptionName(o)) == Setting(s, o))
  {
    var args := PeerArgs(publicKey, s);
    WgSetCommandWords(tunnel, args);
    PeerArgsReadBack(publicKey, s);
    var words := Split(WgSetCommand(tunnel, args), ' ');
    assert words == ["wg", "set", tunnel, "peer"] + args;
    assert words[5..] == args[1..];
  }

  // ---------------------------------------------------------------------------
  // `WireguardClient._run`: the command text of an argument list
  // ---------------------------------------------------------------------------

  /** What `_run` is given: a shell command, or a list of arguments. */
  datatype Argv = Shell(command: string) | Words(words: seq<string>)

  /** Each argument between double quotes, as written, without escaping. */
  function Quoted(words: seq<string>): (r: seq<string>)
    ensures |r| == |words|
  {
    if |words| == 0 then [] else ["\"" + words[0] + "\""] + Quoted(words[1..])
  }

  /** The text `_run` hands to the shell. */
  function CommandText(argv: Argv): string {
    match argv
    case Shell(command) => command
    case Words(words) => Join(Quoted(words), " ")
  }

  /** Every second piece, starting with the second. */
  function OddPieces(pieces: seq<string>): seq<string> {
    if |pieces| < 2 then [] else [pieces[1]] + OddPieces(pieces[2..])
  }

  /** How a shell reads back double-quoted words: the text between the quotes. */
  function Unquote(text: string): seq<string> {
    OddPieces(Split(text, '"'))
  }

  /** The pieces between the quote characters of a quoted list: each word, then a space or the end. */
  function QuotePieces(words: seq<string>): (r: seq<string>)
    requires |words| >= 1
    ensures |r| >= 2
  {
    if |words| == 1 then [words[0], ""] else [words[0], " "] + QuotePieces(words[1..])
  }

  lemma {:induction false} QuotedAsPieces(words: seq<string>)
    requires |words| >= 1
    ensures Join(Quoted(words), " ") == "\"" + Join(QuotePieces(words), "\"")
  {
    var q := "\"";
    if |words| == 1 {
      assert Join(QuotePieces(words), q) == words[0] + q + Join([""], q) by {
        JoinCons(words[0], [""], q);
      }
    } else {
      var rest := words[1..];
      QuotedAsPieces(rest);
      var inner := QuotePieces(rest);
      JoinCons(q + words[0] + q, Quoted(rest), " ");
      assert Quoted(words) == [q + words[0] + q] + Quoted(rest);
      JoinCons(" ", inner, q);
      JoinCons(words[0], [" "] + inner, q);
      assert QuotePieces(words) == [words[0]] + ([" "] + inner);
      QuoteAssoc(q, words[0], " ", Join(inner, q));
    }
  }

  lemma QuoteAssoc(q: string, w: string, sp: string, rest: string)
    ensures q + w + q + sp + (q + rest) == q + (w + q + (sp + q + rest))
  {
  }

  lemma {:induction false} OddOfPieces(x: string, words: seq<string>)
    requires |words| >= 1
    decreases |words|
    ensures OddPieces([x] + QuotePieces(words)) == words
  {
    var p := [x] + QuotePieces(words);
    if |words| == 1 {
      assert p[2..] == [""];
    } else {
      OddOfPieces(" ", words[1..]);
      assert p[2..] == [" "] + QuotePieces(words[1..]);
      assert [words[0]] + words[1..] == words;
    }
  }

  /** A list of arguments free of double quotes is read back by the shell word for word. */
  lemma UnquoteQuoted(words: seq<string>)
    requires Lacks(words, '"')
    ensures Unquote(CommandText(Words(words))) == words
  {
    if |words| > 0 {
      var pieces := [""] + QuotePieces(words);
      QuotedAsPieces(words);
      JoinCons("", QuotePieces(words), "\"");
      assert CommandText(Words(words)) == Join(pieces, ['"']);
      assert Lacks(QuotePieces(words), '"') by {
        PiecesLack(words);
      }
      assert Lacks(pieces, '"');
      SplitJoin(pieces, '"');
      OddOfPieces("", words);
    }
  }

  lemma {:induction false} PiecesLack(words: seq<string>)
    requires |words| >= 1 && Lacks(words, '"')
    ensures Lacks(QuotePieces(words), '"')
  {
    if |words| > 1 {
      PiecesLack(words[1..]);
      assert Lacks(words[1..], '"') by {
        assert forall k :: 0 <= k < |words[1..]| ==> words[1..][k] == words[k + 1];
      }
    }
  }

  /** An argument holding a double quote is not escaped: the shell reads it as two words. */
  lemma QuoteInsideArgumentSplits()
    ensures Unquote(CommandText(Words(["a\"b"]))) == ["a", ""]
  {
    var q := ['"'];
    var text := CommandText(Words(["a\"b"]));
    assert text == "" + q + ("a" + q + ("b" + q + ""));
    NoSeparatorSplit("", '"');
    SplitAroundSeparator("b", "", '"');
    SplitAroundSeparator("a", "b" + q + "", '"');
    SplitAroundSeparator("", "a" + q + ("b" + q + ""), '"');
    assert Split(text, '"') == ["", "a", "b", ""];
  }

  // ---------------------------------------------------------------------------
  // `WireguardClient.get_peers`
  // ---------------------------------------------------------------------------

  /** A public key as `get_peers` returns it: not empty, no whitespace at either end. */
  predicate Clean(key: string) {
    |key| > 0 && !IsSpace(key[0]) && !IsSpace(key[|key| - 1])
  }

  /** The keys that are not empty, in order. */
  function NonEmpty(keys: seq<string>): (r: seq<string>)
    ensures |r| <= |keys|
  {
    if |keys| == 0 then []
    else
      var last := keys[|keys| - 1];
      NonEmpty(keys[..|keys| - 1]) + (if |last| == 0 then [] else [last])
  }

  /** The stripped lines that are not empty, in order. */
  function PeerKeys(lines: seq<string>): (r: seq<string>)
    ensures |r| <= |lines|
  {
    NonEmpty(Strips(lines))
  }

  lemma NonEmptyAppend(keys: seq<string>, key: string)
    ensures NonEmpty(keys + [key]) == NonEmpty(keys) + (if |key| == 0 then [] else [key])
  {
    assert (keys + [key])[..|keys|] == keys;
  }

  /** Every key kept is one of the keys, and not empty. */
  lemma {:induction false} NonEmptyKept(keys: seq<string>)
    ensures forall k :: 0 <= k < |NonEmpty(keys)| ==> |NonEmpty(keys)[k]| > 0 && NonEmpty(keys)[k] in keys
  {
    if |keys| > 0 {
      var init := keys[..|keys| - 1];
      NonEmptyKept(init);
      assert forall x :: x in init ==> x in keys;
    }
  }

  /** Keys that are all non-empty are all kept. */
  lemma {:induction false} NonEmptyAll(keys: seq<string>)
    requires forall k :: 0 <= k < |keys| ==> |keys[k]| > 0
    ensures NonEmpty(keys) == keys
  {
    if |keys| > 0 {
      var init := keys[..|keys| - 1];
      NonEmptyAll(init);
      assert init + [keys[|keys| - 1]] == keys;
    }
  }

  /** Every key read is clean: not empty, and no whitespace at either end. */
  lemma PeerKeysClean(lines: seq<string>)
    ensures forall k :: 0 <= k < |PeerKeys(lines)| ==> Clean(PeerKeys(lines)[k])
  {
    NonEmptyKept(Strips(lines));
  }

  lemma StripsPointwise(lines: seq<string>, stripped: seq<string>)
    requires |stripped| == |lines|
    requires forall k {:trigger lines[k]} :: 0 <= k < |lines| ==> stripped[k] == Strip(lines[k])
    ensures stripped == Strips(lines)
  {
  }

  /** The loop of `get_peers`: strips each line and keeps the non-empty ones, in order. */
  method KeepPeerKeys(lines: seq<string>) returns (peers: seq<string>)
    ensures peers == PeerKeys(lines)
  {
    ghost var stripped: seq<string> := [];
    peers := [];
    var i := 0;
    while i < |lines|
      invariant 0 <= i <= |lines| && |stripped| == i
      invariant forall k {:trigger lines[k]} :: 0 <= k < i ==> stripped[k] == Strip(lines[k])
      invariant peers == NonEmpty(stripped)
    {
      var line := Strip(lines[i]);
      NonEmptyAppend(stripped, line);
      stripped := stripped + [line];
      if |line| != 0 {
        peers := peers + [line];
      }
      i := i + 1;
    }
    StripsPointwise(lines, stripped);
  }

  /**
   * `get_peers`: runs `wg show <tunnel> peers` (its exit status and output are
   * parameters), checks the exit status and keeps the non-empty stripped lines.
   */
  method GetPeers(tunnel: string, exit: int, stdout: string) returns (r: Result<seq<string>, Failure>)
    ensures exit != 0 ==> r == Err(CalledProcessError(["wg show " + tunnel + " peers"], exit))
    ensures exit == 0 ==> r == Ok(PeerKeys(SplitLines(stdout)))
  {
    var check := CheckReturncode("wg show " + tunnel + " peers", exit);
    if check.Err? {
      return Err(check.error);
    }
    var peers := KeepPeerKeys(SplitLines(stdout));
    r := Ok(peers);
  }

  /** The output of `wg show <tunnel> peers`: one key per line. */
  function Terminated(keys: seq<string>): string {
    if |keys| == 0 then "" else keys[0] + "\n" + Terminated(keys[1..])
  }

  predicate NoLineBreak(s: string) {
    forall k :: 0 <= k < |s| ==> !IsLineBreak(s[k])
  }

  lemma SplitLinesCons(line: string, rest: string)
    requires NoLineBreak(line)
    ensures SplitLines(line + "\n" + rest) == [line] + SplitLines(rest)
  {
    var s := line + "\n" + rest;
    var i := FirstBreak(s);
    assert s[|line|] == '\n';
    assert i == |line|;
    assert s[..i] == line;
    assert s[i + 1..] == rest;
  }

  lemma {:induction false} SplitTerminated(keys: seq<string>)
    requires forall k :: 0 <= k < |keys| ==> NoLineBreak(keys[k])
    ensures SplitLines(Terminated(keys)) == keys
  {
    if |keys| > 0 {
      SplitTerminated(keys[1..]);
      SplitLinesCons(keys[0], Terminated(keys[1..]));
      assert [keys[0]] + keys[1..] == keys;
    }
  }

  lemma CleanKeysKept(keys: seq<string>)
    requires forall k :: 0 <= k < |keys| ==> Clean(keys[k])
    ensures PeerKeys(keys) == keys
  {
    forall k | 0 <= k < |keys|
      ensures Strip(keys[k]) == keys[k]
    {
      StripSelf(keys[k]);
    }
    StripsPointwise(keys, keys);
    NonEmptyAll(keys);
  }

  /** Keys listed one per line are read back as they are, in order. */
  lemma GetPeersReadsBack(keys: seq<string>)
    requires forall k :: 0 <= k < |keys| ==> Clean(keys[k]) && NoLineBreak(keys[k])
    ensures PeerKeys(SplitLines(Terminated(keys))) == keys
  {
    SplitTerminated(keys);
    CleanKeysKept(keys);
  }

  // ---------------------------------------------------------------------------
  // `WireguardClient.guess_platform`
  // ---------------------------------------------------------------------------

  /**
   * `guess_platform`: a local client reports `platform.system().lower()`
   * (the system name is a parameter); a remote one is "windows" when
   * `cat /etc/os-release` exits with a positive status and "linux" otherwise.
   */
  function GuessPlatform(remote: bool, system: string, probeExit: int): (r: string)
    ensures remote ==> (r == "windows" <==> probeExit > 0) && (r == "linux" <==> probeExit <= 0)
    ensures !remote ==> |r| == |system| && forall k :: 0 <= k < |r| ==>
      !('A' <= r[k] <= 'Z') && (!('A' <= system[k] <= 'Z') ==> r[k] == system[k])
  {
    if !remote then Lower(system)
    else if probeExit > 0 then "windows"
    else "linux"
  }
}
