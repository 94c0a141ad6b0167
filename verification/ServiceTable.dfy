/**
 Service discovery: the descriptor that the headunit sends to AAServer, that AAClient fetches over
 the socket and passes on to the phone, and the tables of channel handlers that both programs fill
 from it.
 */
module ServiceTable {
  import opened Utils
  import opened Messages

  datatype Kind = Default | Video | Input

  /** What the two programs look at in a channel of the descriptor. */
  datatype Channel = Channel(id: byte, video: bool, input: bool)

  /** A table of handlers, indexed by channel. */
  type Table = t: seq<Option<Kind>> | |t| == 256 witness EMPTY

  const EMPTY: seq<Option<Kind>> := seq(256, _ => None)

  /** Both programs start with a handler for channel 0 only. */
  const INITIAL: Table := EMPTY[0 := Some(Default)]

  /** Is `k` the last of the channels with this id? */
  predicate LastWithId(chs: seq<Channel>, id: byte, k: nat) {
    k < |chs| && chs[k].id == id && forall j :: k < j < |chs| ==> chs[j].id != id
  }

  /**
   The last channel with an id decides: a video channel's handler is a video handler whatever else it
   is marked as, an input channel's an input handler, any other's a default handler. Other ids keep
   what they had.
   */
  ghost predicate Filled(before: Table, chs: seq<Channel>, after: Table) {
    && (forall k: nat, id: byte :: LastWithId(chs, id, k) ==>
          && after[id].Some?
          && (after[id].value.Video? <==> chs[k].video)
          && (after[id].value.Input? <==> !chs[k].video && chs[k].input)
          && (after[id].value.Default? <==> !chs[k].video && !chs[k].input))
    && (forall id: byte :: (forall ch :: ch in chs ==> ch.id != id) ==> after[id] == before[id])
  }

  /** The last channel with an id, if there is one. */
  ghost function LastIndex(chs: seq<Channel>, id: byte): (k: Option<nat>)
    ensures k.Some? ==> LastWithId(chs, id, k.value)
    ensures k.None? ==> forall ch :: ch in chs ==> ch.id != id
  {
    if chs == [] then None
    else if chs[|chs| - 1].id == id then Some(|chs| - 1)
    else LastIndex(chs[..|chs| - 1], id)
  }

  /** The requirement determines the table. */
  lemma FilledUnique(before: Table, chs: seq<Channel>, a: Table, b: Table)
    requires Filled(before, chs, a) && Filled(before, chs, b)
    ensures a == b
  {
    forall i | 0 <= i < 256 ensures a[i] == b[i] {
      var id: byte := i;
      var k := LastIndex(chs, id);
      if k.Some? {
        assert LastWithId(chs, id, k.value);
      }
    }
  }

  lemma FilledMore(before: Table, chs: seq<Channel>, mid: Table, ch: Channel, kind: Kind)
    requires Filled(before, chs, mid)
    requires (kind.Video? <==> ch.video) && (kind.Input? <==> !ch.video && ch.input)
    ensures Filled(before, chs + [ch], mid[ch.id := Some(kind)])
  {
    var all, after := chs + [ch], mid[ch.id := Some(kind)];
    forall k: nat, id: byte | LastWithId(all, id, k)
      ensures after[id].Some? && (after[id].value.Video? <==> all[k].video)
              && (after[id].value.Input? <==> !all[k].video && all[k].input)
    {
      if k < |chs| {
        assert all[|chs|].id != id;
        assert LastWithId(chs, id, k) by {
          forall j | k < j < |chs| ensures chs[j].id != id {
            assert all[j] == chs[j];
          }
        }
      }
    }
    forall id: byte | forall c :: c in all ==> c.id != id ensures after[id] == before[id] {
      assert ch in all;
      forall c | c in chs ensures c.id != id {
        assert c in all;
      }
    }
  }

  /** One turn of the loop over the channels. */
  lemma FilledNext(before: Table, chs: seq<Channel>, n: nat, mid: Table, kind: Kind)
    requires n < |chs| && Filled(before, chs[..n], mid)
    requires (kind.Video? <==> chs[n].video) && (kind.Input? <==> !chs[n].video && chs[n].input)
    ensures Filled(before, chs[..n + 1], mid[chs[n].id := Some(kind)])
  {
    FilledMore(before, chs[..n], mid, chs[n], kind);
    TakeOneMore(chs, n);
  }

  /** The number for a channel type before any channel of it has been seen: -1 in a `uint8_t`. */
  const UNSET: byte := 0xff

  /** Is `i` the last channel marked as video? */
  predicate LastVideo(chs: seq<Channel>, i: nat) {
    i < |chs| && chs[i].video && forall j :: i < j < |chs| ==> !chs[j].video
  }

  /** Is `i` the last channel marked as input and not as video? */
  predicate LastInput(chs: seq<Channel>, i: nat) {
    i < |chs| && chs[i].input && !chs[i].video && forall j :: i < j < |chs| ==> chs[j].video || !chs[j].input
  }

  predicate NoVideo(chs: seq<Channel>) { forall ch :: ch in chs ==> !ch.video }

  predicate NoInput(chs: seq<Channel>) { forall ch :: ch in chs ==> ch.video || !ch.input }

  /** Number 0 is the id of the last video channel, number 1 that of the last input channel. */
  ghost predicate Numbered(before: seq<byte>, chs: seq<Channel>, after: seq<byte>) {
    && |before| == |after| == 2
    && (forall i: nat :: LastVideo(chs, i) ==> after[0] == chs[i].id)
    && (forall i: nat :: LastInput(chs, i) ==> after[1] == chs[i].id)
    && (NoVideo(chs) ==> after[0] == before[0])
    && (NoInput(chs) ==> after[1] == before[1])
  }

  lemma NumberedMore(before: seq<byte>, chs: seq<Channel>, mid: seq<byte>, ch: Channel)
    requires Numbered(before, chs, mid)
    ensures Numbered(before, chs + [ch], if ch.video then mid[0 := ch.id] else if ch.input then mid[1 := ch.id] else mid)
  {
    var all := chs + [ch];
    assert ch == all[|chs|] && ch in all;
    forall i: nat | LastVideo(all, i) && !ch.video ensures LastVideo(chs, i) {
      assert forall j :: i < j < |chs| ==> chs[j] == all[j];
    }
    forall i: nat | LastInput(all, i) && (ch.video || !ch.input) ensures LastInput(chs, i) {
      assert forall j :: i < j < |chs| ==> chs[j] == all[j];
    }
    assert forall c :: c in chs ==> c in all;
  }

  lemma NumberedNext(before: seq<byte>, chs: seq<Channel>, n: nat, mid: seq<byte>)
    requires n < |chs| && Numbered(before, chs[..n], mid)
    ensures var ch := chs[n];
            Numbered(before, chs[..n + 1], if ch.video then mid[0 := ch.id] else if ch.input then mid[1 := ch.id] else mid)
  {
    NumberedMore(before, chs[..n], mid, chs[n]);
    TakeOneMore(chs, n);
  }

  lemma {:induction false} SomeLastVideo(chs: seq<Channel>) returns (i: nat)
    requires !NoVideo(chs)
    ensures LastVideo(chs, i)
  {
    i := |chs| - 1;
    if !chs[i].video {
      assert forall ch :: ch in chs ==> ch == chs[i] || ch in chs[..i];
      i := SomeLastVideo(chs[..i]);
    }
  }

  lemma {:induction false} SomeLastInput(chs: seq<Channel>) returns (i: nat)
    requires !NoInput(chs)
    ensures LastInput(chs, i)
  {
    i := |chs| - 1;
    if chs[i].video || !chs[i].input {
      assert forall ch :: ch in chs ==> ch == chs[i] || ch in chs[..i];
      i := SomeLastInput(chs[..i]);
    }
  }

  /** `UNSET` stands for "none" because no channel has that id; otherwise the number is that of the last channel. */
  lemma NumberMeaning(chs: seq<Channel>, numbers: seq<byte>)
    requires Numbered([UNSET, UNSET], chs, numbers) && forall ch :: ch in chs ==> ch.id <= 254
    ensures if NoVideo(chs) then numbers[0] == UNSET
            else numbers[0] != UNSET && exists i: nat :: LastVideo(chs, i) && chs[i].id == numbers[0]
    ensures if NoInput(chs) then numbers[1] == UNSET
            else numbers[1] != UNSET && exists i: nat :: LastInput(chs, i) && chs[i].id == numbers[1]
  {
    if !NoVideo(chs) {
      var i := SomeLastVideo(chs);
      assert chs[i] in chs;
    }
    if !NoInput(chs) {
      var i := SomeLastInput(chs);
      assert chs[i] in chs;
    }
  }

  /**
   The number given out for a channel type leads to a handler of that type if and only if no later
   channel of another kind has the same id.
   */
  lemma NumberNamesHandler(before: Table, chs: seq<Channel>, after: Table, numbers: seq<byte>, i: nat)
    requires Filled(before, chs, after) && Numbered([UNSET, UNSET], chs, numbers)
    ensures LastVideo(chs, i) ==> (after[numbers[0]] == Some(Video) <==> LastWithId(chs, chs[i].id, i))
    ensures LastInput(chs, i) ==> (after[numbers[1]] == Some(Input) <==> LastWithId(chs, chs[i].id, i))
  {
    if LastVideo(chs, i) || LastInput(chs, i) {
      var k := LastIndex(chs, chs[i].id);
      assert chs[i] in chs;
      assert LastWithId(chs, chs[i].id, k.value);
      if k.value != i {
        assert k.value > i;
      }
    }
  }

  // ---------------------------------------------------------------- AAServer

  class ServerDirectory {
    const parse: Bytes -> seq<Channel>
    const channelHandlers: array<Option<Kind>>
    const channelTypeToChannelNumber: array<byte>
    var serviceDescriptor: Bytes

    ghost predicate Valid()
      reads this
    {
      channelHandlers.Length == 256 && channelTypeToChannelNumber.Length == 2
    }

    constructor (parse: Bytes -> seq<Channel>)
      ensures Valid() && fresh(channelHandlers) && fresh(channelTypeToChannelNumber) && this.parse == parse
      ensures channelHandlers[..] == INITIAL && channelTypeToChannelNumber[..] == [UNSET, UNSET]
      ensures serviceDescriptor == []
    {
      this.parse := parse;
      channelHandlers := new Option<Kind>[256](i => if i == 0 then Some(Default) else None);
      channelTypeToChannelNumber := new byte[2](_ => UNSET);
      serviceDescriptor := [];
    }

    method HandleServiceDiscoveryResponse(buf: Bytes)
      requires Valid()
      modifies this`serviceDescriptor, channelHandlers, channelTypeToChannelNumber
      ensures Valid() && serviceDescriptor == buf
      ensures Filled(old(channelHandlers[..]), parse(buf), channelHandlers[..])
      ensures Numbered(old(channelTypeToChannelNumber[..]), parse(buf), channelTypeToChannelNumber[..])
    {
      serviceDescriptor := buf;
      var chs := parse(buf);
      var n := 0;
      while n < |chs|
        invariant n <= |chs| && serviceDescriptor == buf
        invariant Filled(old(channelHandlers[..]), chs[..n], channelHandlers[..])
        invariant Numbered(old(channelTypeToChannelNumber[..]), chs[..n], channelTypeToChannelNumber[..])
      {
        var ch := chs[n];
        ghost var kind := if ch.video then Video else if ch.input then Input else Default;
        FilledNext(old(channelHandlers[..]), chs, n, channelHandlers[..], kind);
        NumberedNext(old(channelTypeToChannelNumber[..]), chs, n, channelTypeToChannelNumber[..]);
        ghost var table, numbers := channelHandlers[..][ch.id := Some(kind)], channelTypeToChannelNumber[..];
        numbers := if ch.video then numbers[0 := ch.id] else if ch.input then numbers[1 := ch.id] else numbers;
        if ch.video {
          channelTypeToChannelNumber[0] := ch.id;
          channelHandlers[ch.id] := Some(Video);
        } else if ch.input {
          channelTypeToChannelNumber[1] := ch.id;
          channelHandlers[ch.id] := Some(Input);
        } else {
          channelHandlers[ch.id] := Some(Default);
        }
        assert channelHandlers[..] == table && channelTypeToChannelNumber[..] == numbers;
        n := n + 1;
      }
      assert chs[..n] == chs;
    }

    /** The check for a negative number never fires on an unsigned byte. */
    method GetChannelNumberByChannelType(ct: nat) returns (r: Result<byte>)
      requires Valid() && ct < 2
      ensures r == Ok(channelTypeToChannelNumber[ct])
    {
      var channelId := channelTypeToChannelNumber[ct];
      if channelId as int < 0 {
        return Err("Invalid channelId");
      }
      r := Ok(channelId);
    }
  }

  // ---------------------------------------------------------------- AAClient

  /** The size of the buffer that AAClient reads the descriptor into. */
  const DESCRIPTOR_READ: nat := 10240

  /** What `getServiceDescriptor` makes of the server's answer. */
  function Fetched(answer: Bytes): (r: Result<Bytes>) {
    var ret := Min(|answer|, DESCRIPTOR_READ);
    if ret <= 0 then Err("read failed") else Ok(answer[..ret])
  }

  class ClientDirectory {
    const parse: Bytes -> seq<Channel>
    const serviceDescription: Bytes
    const channelHandlers: array<Option<Kind>>

    ghost predicate Valid()
      reads this
    {
      channelHandlers.Length == 255
    }

    /** The table has room for the ids up to 254 only. */
    ghost function Handlers(): Table
      requires Valid()
      reads this, channelHandlers
    {
      channelHandlers[..] + [None]
    }

    constructor (parse: Bytes -> seq<Channel>, sd: Bytes)
      ensures Valid() && fresh(channelHandlers) && this.parse == parse && serviceDescription == sd
      ensures Handlers() == INITIAL
    {
      this.parse, serviceDescription := parse, sd;
      channelHandlers := new Option<Kind>[255](i => if i == 0 then Some(Default) else None);
    }

    method HandleServiceDiscoveryRequest() returns (message: Bytes)
      requires Valid() && forall ch :: ch in parse(serviceDescription) ==> ch.id <= 254
      modifies channelHandlers
      ensures Valid() && Filled(old(Handlers()), parse(serviceDescription), Handlers())
      ensures message == DiscoveryResponse(serviceDescription)
    {
      message := Int16(SERVICE_DISCOVERY_RESPONSE);
      message := message + serviceDescription;
      var chs := parse(serviceDescription);
      var n := 0;
      while n < |chs|
        invariant n <= |chs|
        invariant Filled(old(Handlers()), chs[..n], Handlers())
      {
        var ch := chs[n];
        ghost var kind := if ch.video then Video else if ch.input then Input else Default;
        FilledNext(old(Handlers()), chs, n, Handlers(), kind);
        ghost var table := Handlers()[ch.id := Some(kind)];
        if ch.video {
          channelHandlers[ch.id] := Some(Video);
        } else if ch.input {
          channelHandlers[ch.id] := Some(Input);
        } else {
          channelHandlers[ch.id] := Some(Default);
        }
        assert Handlers() == table;
        n := n + 1;
      }
      assert chs[..n] == chs;
    }
  }

  // ---------------------------------------------------------------- the two together

  /**
   The phone receives the headunit's discovery response unchanged if and only if the descriptor is
   at most 10240 bytes long; an empty one makes AAClient fail.
   */
  lemma DescriptorRelayExactly(content: Bytes)
    requires |content| >= 2 && TypeOf(content) == SERVICE_DISCOVERY_RESPONSE
    ensures var d := Fetched(content[2..]);
            && (d.Ok? <==> |content| > 2)
            && (d.Ok? ==> (DiscoveryResponse(d.value) == content <==> |content| - 2 <= DESCRIPTOR_READ))
  {
    var d := Fetched(content[2..]);
    assert Int16(SERVICE_DISCOVERY_RESPONSE) == content[..2];
    TakeDrop(content, 2);
    if d.Ok? && |content| - 2 > DESCRIPTOR_READ {
      assert |DiscoveryResponse(d.value)| < |content|;
    }
  }

  /** Then both programs give every id a handler of the same kind. */
  method Discover(parse: Bytes -> seq<Channel>, content: Bytes)
    returns (server: ServerDirectory, client: Option<ClientDirectory>, toPhone: Bytes)
    requires |content| >= 2 && TypeOf(content) == SERVICE_DISCOVERY_RESPONSE && |content| - 2 <= DESCRIPTOR_READ
    requires forall ch :: ch in parse(content[2..]) ==> ch.id <= 254
    ensures client.Some? <==> |content| > 2
    ensures client.Some? ==> toPhone == content
    ensures client.Some? ==> client.value.Valid() && server.Valid() && server.channelHandlers[..] == client.value.Handlers()
  {
    server := new ServerDirectory(parse);
    server.HandleServiceDiscoveryResponse(content[2..]);
    DescriptorRelayExactly(content);
    var sd := Fetched(server.serviceDescriptor);
    if sd.Err? {
      return server, None, [];
    }
    assert sd.value == content[2..];
    var c := new ClientDirectory(parse, sd.value);
    toPhone := c.HandleServiceDiscoveryRequest();
    FilledUnique(INITIAL, parse(content[2..]), server.channelHandlers[..], c.Handlers());
    client := Some(c);
  }
}
