/** The discovery bridge: cached device info, answered broadcasts, and the refresh from the telescope. */
module Discovery {
  import opened Prelude
  import opened Json

  /** What the loop does with a datagram it can decode. */
  predicate IsScan(m: Json) {
    Get(m, "method") == Some(Str("scan_iscope"))
  }

  predicate IsResponse(m: Json) {
    Get(m, "result").Some? || Get(m, "code").Some?
  }

  /** A datagram that makes the loop answer. */
  predicate Triggers(m: Json) {
    IsScan(m) && !IsResponse(m)
  }

  /** Points `result.ip` at the proxy. Indexing a result that is neither object nor null panics. */
  function PatchIp(m: Json, ip: string): Option<Json> {
    match Get(m, "result")
    case None => Some(m)
    case Some(Obj(f)) => Some(Obj(m.fields["result" := Obj(f["ip" := Str(ip)])]))
    case Some(Null) => Some(Obj(m.fields["result" := Obj(map["ip" := Str(ip)])]))
    case Some(_) => None
  }

  /** The info names a real telescope. */
  predicate IsReal(m: Json) {
    match Get(m, "result")
    case None => false
    case Some(r) => Get(r, "sn").Some? && Get(r, "sn").value.Str? && Get(r, "sn").value != Str("proxy")
  }

  datatype Bridge = Running(info: Json, known: bool) | Panicked

  /** A received datagram: whether it came from the telescope, and its JSON if it has any. */
  datatype Packet = Packet(fromTelescope: bool, json: Option<Json>)

  /** What one datagram makes the bridge send: the cached info (unicast and broadcast) and a refresh probe. */
  datatype Sent = Nothing | Answer(info: Json, probe: bool)

  function Startup(found: Json, ip: string): Bridge {
    match PatchIp(found, ip)
    case None => Panicked
    case Some(info) => Running(info, IsReal(info))
  }

  function Handle(b: Bridge, p: Packet, ip: string): (Bridge, Sent) {
    if b.Panicked? || p.json.None? || !IsScan(p.json.value) then (b, Nothing)
    else if IsResponse(p.json.value) then
      if p.fromTelescope && !b.known then
        match PatchIp(p.json.value, ip)
        case None => (Panicked, Nothing)
        case Some(info) => (Running(info, true), Nothing)
      else (b, Nothing)
    else (b, Answer(b.info, !b.known))
  }

  class DiscoveryBridge {
    var deviceInfo: Json
    var haveRealInfo: bool
    const proxyIp: string

    ghost function View(): Bridge
      reads this
    {
      Running(deviceInfo, haveRealInfo)
    }

    constructor (info: Json, ip: string)
      requires Startup(info, ip).Running?
      ensures View() == Startup(info, ip) && proxyIp == ip
    {
      proxyIp := ip;
      deviceInfo := PatchIp(info, ip).value;
      haveRealInfo := IsReal(PatchIp(info, ip).value);
    }

    /** One turn of the receive loop. */
    method HandlePacket(fromTelescope: bool, json: Option<Json>) returns (sent: Sent, panicked: bool)
      modifies this
      ensures
        var (next, out) := Handle(old(View()), Packet(fromTelescope, json), proxyIp);
        sent == out && (if panicked then next.Panicked? else next == View())
    {
      sent, panicked := Nothing, false;
      if json.None? || Get(json.value, "method") != Some(Str("scan_iscope")) {
        return;
      }
      var request := json.value;
      if Get(request, "result").Some? || Get(request, "code").Some? {
        if fromTelescope && !haveRealInfo {
          var updated := PatchIp(request, proxyIp);
          if updated.None? {
            panicked := true;
            return;
          }
          deviceInfo, haveRealInfo := updated.value, true;
        }
        return;
      }
      sent := Answer(deviceInfo, !haveRealInfo);
    }
  }

  // ----- Runs -----

  /** The state after each prefix of the packets, the start first. */
  function States(b: Bridge, packets: seq<Packet>, ip: string): seq<Bridge>
    decreases |packets|
  {
    if packets == [] then [b] else [b] + States(Handle(b, packets[0], ip).0, packets[1..], ip)
  }

  function Outputs(b: Bridge, packets: seq<Packet>, ip: string): seq<Sent>
    decreases |packets|
  {
    if packets == [] then []
    else [Handle(b, packets[0], ip).1] + Outputs(Handle(b, packets[0], ip).0, packets[1..], ip)
  }

  /** A cached result that is an object carries the proxy's address, and no other kind of result is cached. */
  predicate CarriesIp(m: Json, ip: string) {
    Get(m, "result").Some? ==>
      Get(m, "result").value.Obj? && Get(Get(m, "result").value, "ip") == Some(Str(ip))
  }

  lemma PatchCarriesIp(m: Json, ip: string)
    requires PatchIp(m, ip).Some?
    ensures CarriesIp(PatchIp(m, ip).value, ip)
    ensures IsResponse(PatchIp(m, ip).value) == IsResponse(m) && IsScan(PatchIp(m, ip).value) == IsScan(m)
  {}

  ghost predicate Good(b: Bridge, ip: string) {
    b.Running? ==> CarriesIp(b.info, ip) && !Triggers(b.info)
  }

  lemma HandleKeepsGood(b: Bridge, p: Packet, ip: string)
    requires Good(b, ip)
    ensures Good(Handle(b, p, ip).0, ip)
    ensures Handle(b, p, ip).1.Answer? ==> !Triggers(Handle(b, p, ip).1.info) && CarriesIp(Handle(b, p, ip).1.info, ip)
  {
    if p.json.Some? && PatchIp(p.json.value, ip).Some? {
      PatchCarriesIp(p.json.value, ip);
    }
  }

  lemma {:induction false} AnswersNeverTrigger(b: Bridge, packets: seq<Packet>, ip: string)
    requires Good(b, ip)
    ensures forall s | s in Outputs(b, packets, ip) && s.Answer? :: !Triggers(s.info) && CarriesIp(s.info, ip)
    decreases |packets|
  {
    if packets != [] {
      HandleKeepsGood(b, packets[0], ip);
      AnswersNeverTrigger(Handle(b, packets[0], ip).0, packets[1..], ip);
    }
  }

  /** What the loop hears of its own answers. */
  function Echoes(info: Json, n: nat): seq<Packet> {
    seq(n, i => Packet(false, Some(info)))
  }

  lemma {:induction false} EchoStorm(b: Bridge, n: nat, ip: string)
    requires b.Running? && Triggers(b.info)
    ensures Outputs(b, Echoes(b.info, n), ip) == seq(n, i => Answer(b.info, !b.known))
    decreases n
  {
    if n > 0 {
      EchoStorm(b, n - 1, ip);
      assert Echoes(b.info, n)[1..] == Echoes(b.info, n - 1);
    }
  }

  /** Startup accepts a bare scan request as device info, and the bridge then answers itself. */
  lemma ScanAsInfoStorms(ip: string, n: nat)
    ensures
      var info := Obj(map["method" := Str("scan_iscope")]);
      && Startup(info, ip) == Running(info, false)
      && Outputs(Startup(info, ip), Echoes(info, n), ip) == seq(n, i => Answer(info, true))
  {
    var info := Obj(map["method" := Str("scan_iscope")]);
    EchoStorm(Running(info, false), n, ip);
  }

  /**
   Hearing its own broadcasts never makes the bridge answer, over every sequence
   of packets, exactly if the info it started from would not make it answer. If
   it would, answers feed on their own echoes without end.
   */
  lemma NoEchoLoopExactly(found: Json, ip: string)
    requires Startup(found, ip).Running?
    ensures
      (forall packets: seq<Packet>, s | s in Outputs(Startup(found, ip), packets, ip) && s.Answer? ::
         !Triggers(s.info))
      <==> !Triggers(found)
  {
    var b := Startup(found, ip);
    PatchCarriesIp(found, ip);
    if !Triggers(found) {
      forall packets: seq<Packet>, s | s in Outputs(b, packets, ip) && s.Answer? ensures !Triggers(s.info) {
        AnswersNeverTrigger(b, packets, ip);
      }
    } else {
      EchoStorm(b, 1, ip);
      var out := Outputs(b, Echoes(b.info, 1), ip);
      assert out[0] == Answer(b.info, !b.known);
    }
  }

  /**
   Over every sequence of packets the cache changes at most once: up to some
   point all states are the start, and from there on they are all the same.
   */
  lemma {:induction false} CacheChangesAtMostOnce(b: Bridge, packets: seq<Packet>, ip: string) returns (k: nat)
    ensures k <= |States(b, packets, ip)| == |packets| + 1
    ensures forall i | 0 <= i < k :: States(b, packets, ip)[i] == b
    ensures forall i, j | k <= i < j <= |packets| :: States(b, packets, ip)[i] == States(b, packets, ip)[j]
    ensures forall i | k <= i <= |packets| && b.Running? ::
              States(b, packets, ip)[i].Running? ==> States(b, packets, ip)[i].known
    decreases |packets|
  {
    k := 1;
    if packets != [] {
      var next := Handle(b, packets[0], ip).0;
      var rest := States(next, packets[1..], ip);
      if next == b {
        var j := CacheChangesAtMostOnce(b, packets[1..], ip);
        k := j + 1;
      } else {
        Settled(next, packets[1..], ip);
        assert forall i | 0 <= i < |rest| :: rest[i] in rest;
      }
    }
  }

  /** Once the info is real, or the loop has stopped, nothing changes any more. */
  lemma {:induction false} Settled(b: Bridge, packets: seq<Packet>, ip: string)
    requires b.Panicked? || b.known
    ensures |States(b, packets, ip)| == |packets| + 1
    ensures forall s | s in States(b, packets, ip) :: s == b
    decreases |packets|
  {
    if packets != [] {
      Settled(Handle(b, packets[0], ip).0, packets[1..], ip);
    }
  }

  // ----- The panic -----

  /** A result that cannot be given an address. */
  predicate BadResult(m: Json) {
    var result := Get(m, "result");
    result.Some? && !result.value.Obj? && !result.value.Null?
  }

  predicate IsTelescopeReply(p: Packet) {
    p.fromTelescope && p.json.Some? && IsScan(p.json.value) && IsResponse(p.json.value)
  }

  /** The first scan response that comes from the telescope. */
  function FirstReply(packets: seq<Packet>): Option<Json> {
    if packets == [] then None
    else if IsTelescopeReply(packets[0]) then packets[0].json
    else FirstReply(packets[1..])
  }

  /** Startup panics exactly on a bad result. */
  lemma StartupPanicsExactly(found: Json, ip: string)
    ensures Startup(found, ip).Panicked? <==> BadResult(found)
  {}

  /**
   Over every packet sequence the running loop panics if and only if its info is
   not real yet and the first scan response from the telescope has a bad result.
   */
  lemma {:induction false} PanicsExactly(b: Bridge, packets: seq<Packet>, ip: string)
    requires b.Running?
    ensures Panicked in States(b, packets, ip) <==>
            !b.known && FirstReply(packets).Some? && BadResult(FirstReply(packets).value)
    decreases |packets|
  {
    if packets != [] {
      var next := Handle(b, packets[0], ip).0;
      var rest := States(next, packets[1..], ip);
      assert Panicked in [b] + rest <==> Panicked in rest;
      if next == b {
        PanicsExactly(b, packets[1..], ip);
      } else {
        Settled(next, packets[1..], ip);
        assert rest[0] == next;
      }
    }
  }

  /** A scan response whose result is a number stops a bridge that waits for real info. */
  lemma NumberResultPanics(info: Json, ip: string)
    ensures
      var reply := Obj(map["method" := Str("scan_iscope"), "result" := Int(0)]);
      States(Running(info, false), [Packet(true, Some(reply))], ip) == [Running(info, false), Panicked]
  {
    var reply := Obj(map["method" := Str("scan_iscope"), "result" := Int(0)]);
    var packets := [Packet(true, Some(reply))];
    assert Handle(Running(info, false), packets[0], ip).0 == Panicked;
    assert packets[1..] == [];
  }

  // ----- The configured identity -----

  function Configured(sn: string, model: Option<string>, bssid: Option<string>, ip: string): Json {
    var name := match model case Some(m) => m case None => "Seestar S50";
    var base := map[
      "product_model" := Str(name), "sn" := Str(sn), "ssid" := Str("S50_" + sn), "ip" := Str(ip),
      "is_verified" := Bool(true), "tcp_client_num" := Int(0),
      "can_star_mode_sel_cam" := Bool(false), "serc" := Str("WPA-PSK")];
    var result := match bssid case Some(b) => base["bssid" := Str(b)] case None => base;
    Obj(map["jsonrpc" := Str("2.0"), "Timestamp" := Str("0"), "method" := Str("scan_iscope"),
            "result" := Obj(result), "code" := Int(0), "id" := Int(201)])
  }

  /** A response that replaces info that is not real. */
  function Upgrade(): Packet {
    Packet(true, Some(Obj(map["method" := Str("scan_iscope"), "code" := Int(0)])))
  }

  /**
   A configured identity starts the bridge safely, with the proxy's address. No
   packet sequence ever replaces it, exactly if its serial number is not "proxy".
   */
  lemma ConfiguredIsSafe(sn: string, model: Option<string>, bssid: Option<string>, ip: string)
    ensures
      var b := Startup(Configured(sn, model, bssid, "0.0.0.0"), ip);
      && b.Running? && CarriesIp(b.info, ip) && !Triggers(b.info)
      && Get(Get(b.info, "result").value, "sn") == Some(Str(sn))
      && (b.known <==> sn != "proxy")
      && ((forall packets: seq<Packet>, s | s in States(b, packets, ip) :: s == b) <==> sn != "proxy")
  {
    var b := Startup(Configured(sn, model, bssid, "0.0.0.0"), ip);
    PatchCarriesIp(Configured(sn, model, bssid, "0.0.0.0"), ip);
    if sn != "proxy" {
      forall packets: seq<Packet>, s | s in States(b, packets, ip) ensures s == b {
        Settled(b, packets, ip);
      }
    } else {
      Upgraded(b, ip);
    }
  }

  lemma Upgraded(b: Bridge, ip: string)
    requires b.Running? && !b.known
    ensures exists packets: seq<Packet>, s :: s in States(b, packets, ip) && s != b
  {
    var next := Handle(b, Upgrade(), ip).0;
    assert [Upgrade()][1..] == [];
    assert States(b, [Upgrade()], ip)[1] == next;
    assert next in States(b, [Upgrade()], ip) && next != b;
  }
}
