/**
 RtpServer (src/streamer/rtp_server.cpp): four threads under two locks. Each region run under the
 locks is one step; what a thread keeps between its regions is part of the state. Clock readings, what
 the pacer grants and what the socket accepts are given to the step from outside.

 Times are in milliseconds.
 */
module Server {
  import opened Bytes
  import opened AnnexB
  import opened Rtp
  import opened Packetizer
  import opened Retransmit

  const MAX_SEND_AGE: int := 100
  const MAX_REPAIR_WAIT: int := 20
  const MAX_QUEUED: nat := 4096
  const MAX_REPAIRS: nat := 64
  const REPAIRS_AT_ONCE: nat := 4
  const VIDEO_WINDOW: nat := 1024
  const AUDIO_WINDOW: nat := 512

  datatype VideoFrame = VideoFrame(packets: seq<Packet>, deadline: int, generation: nat)

  datatype RepairPacket = RepairPacket(packet: Packet, deadline: int, generation: nat, video: bool)

  /** The sender's place: asleep, inside send_repairs, after it, or at the head of the packet loop. */
  datatype Place =
    | Waiting
    | Repairing(tried: nat)
    | Holding(tried: nat, repair: RepairPacket)
    | Repaired
    | Stepping

  /** The frame popped from the queue; packets before `next` have been sent. */
  datatype InFlight = InFlight(frame: VideoFrame, next: nat)

  /**
   What the sender did with its packets: a packet of a frame the socket took, or one try at a repair,
   which may have come to nothing.
   */
  datatype Act =
    | Fresh(generation: nat, index: nat, packet: Packet, at: int, deadline: int, recordedAt: int)
    | Repair(generation: nat, packet: Packet, video: bool, at: int, sent: bool)

  datatype State = State(
    streaming: bool, connected: bool, resetDue: bool, running: bool,
    queue: seq<VideoFrame>, repairs: seq<RepairPacket>, queued: int, generation: nat, awaiting: bool,
    video: Cache, audio: Cache, seqNo: int,
    capture: Option<int>, place: Place, inFlight: Option<InFlight>, log: seq<Act>)

  const INITIAL := State(false, false, false, true, [], [], 0, 0, true, EMPTY, EMPTY, 0, None, Waiting, None, [])

  datatype Config = Config(codec: Codec, ssrc: int)

  ghost predicate Configured(g: Config) { 0 <= g.ssrc < TWO32 }

  /** The number in a packet's header, which the streamer writes before it ever reads it. */
  function NumberOf(p: Packet): int {
    if |p| < 4 then 0 else SeqOf(p)
  }

  // ------------------------------------------------------------ what the steps compute

  /** Everything queued is abandoned, and with it the generation. */
  function Abandoned(s: State): State {
    s.(queue := [], repairs := [], video := EMPTY, queued := 0, generation := s.generation + 1, awaiting := true)
  }

  /** Signaling: a client connects or leaves. The queues are reset in a region of its own, later. */
  function Detached(s: State, connected: bool): State {
    s.(streaming := false, connected := connected, resetDue := true)
  }

  function QueueReset(s: State): State {
    Abandoned(s).(audio := EMPTY, resetDue := false)
  }

  function Announced(s: State): State {
    if s.connected then s.(streaming := true) else s
  }

  ghost function PacketsFor(g: Config, s: State, data: seq<byte>, ptsUsec: int): seq<Packet> {
    if Configured(g) && 0 <= s.seqNo < TWO16 then UnitPackets(g.codec, data, ptsUsec, s.seqNo, g.ssrc) else []
  }

  function Pushed(s: State, ps: seq<Packet>, deadline: int): State {
    s.(awaiting := false, queued := s.queued + |ps|, queue := s.queue + [VideoFrame(ps, deadline, s.generation)])
  }

  function Admitted(s: State, ps: seq<Packet>, deadline: int, keyframe: bool): State {
    if (s.awaiting && !keyframe) || |ps| > MAX_QUEUED then s.(awaiting := true) else Pushed(s, ps, deadline)
  }

  /** The oldest unit queued has expired, or there is no room. */
  predicate Overdue(s: State, n: nat, now: int) {
    (s.queue != [] && now >= s.queue[0].deadline) || s.queued + n > MAX_QUEUED
  }

  function Enqueued(s: State, ps: seq<Packet>, deadline: int, keyframe: bool, now: int): State {
    Admitted(if Overdue(s, |ps|, now) then Abandoned(s) else s, ps, deadline, keyframe)
  }

  predicate Accepting(s: State, keyframe: bool) {
    s.streaming && (!s.awaiting || keyframe)
  }

  /** Capture: the second half of broadcast_video; the deadline was read in the first. */
  ghost function Offered(g: Config, s: State, data: seq<byte>, ptsUsec: int, keyframe: bool, now: int): State {
    var s0 := s.(capture := None);
    var ps := PacketsFor(g, s, data, ptsUsec);
    if s.capture.None? || !Accepting(s, keyframe) || ps == [] then s0
    else Enqueued(s0.(seqNo := (s.seqNo + |ps|) % TWO16), ps, s.capture.value, keyframe, now)
  }

  function Voiced(s: State, p: Packet, accepted: bool, now: int): State {
    if s.streaming && accepted then s.(audio := Recorded(AUDIO_WINDOW, s.audio, NumberOf(p), Entry(p, now)))
    else s
  }

  predicate Queued(repairs: seq<RepairPacket>, video: bool, seqNo: int) {
    exists r :: r in repairs && r.video == video && NumberOf(r.packet) == seqNo
  }

  /** RTCP: one number of a NACK. */
  function Requested(s: State, video: bool, seqNo: int, now: int): State {
    if !s.streaming || |s.repairs| >= MAX_REPAIRS || Queued(s.repairs, video, seqNo) then s
    else
      match Retained(if video then s.video else s.audio, seqNo)
      case None => s
      case Some(e) =>
        if now - e.sentAt < MAX_SEND_AGE then
          s.(repairs := s.repairs +
             [RepairPacket(e.packet, Min(e.sentAt + MAX_SEND_AGE, now + MAX_REPAIR_WAIT), s.generation, video)])
        else s
  }

  function Woken(s: State): State {
    if s.running && (s.queue != [] || s.repairs != []) then s.(place := Repairing(0)) else s
  }

  /** The head of the loop in send_repairs. */
  function RepairTaken(s: State, tried: nat): State {
    if tried < REPAIRS_AT_ONCE && s.running && s.repairs != [] then
      s.(place := Holding(tried + 1, s.repairs[0]), repairs := s.repairs[1..])
    else s.(place := Repaired)
  }

  predicate Sendable(s: State, r: RepairPacket, granted: bool, now: int) {
    granted && s.streaming && r.generation == s.generation && now < r.deadline
  }

  function RepairTried(s: State, tried: nat, r: RepairPacket, granted: bool, now: int, accepted: bool): State {
    s.(place := Repairing(tried),
       log := s.log + [Repair(r.generation, r.packet, r.video, now, Sendable(s, r, granted, now) && accepted)])
  }

  function FrameTaken(s: State): State {
    if s.queue == [] then s.(place := Waiting)
    else
      s.(place := Stepping, inFlight := Some(InFlight(s.queue[0], 0)), queue := s.queue[1..],
         queued := s.queued - |s.queue[0].packets|)
  }

  /** The sender lets go of its frame, finished or not. */
  function FrameDropped(s: State): State {
    s.(place := Waiting, inFlight := None)
  }

  /** The head of the loop over the packets of the frame. */
  function Advanced(s: State, f: InFlight): State {
    if f.next < |f.frame.packets| && s.running then s.(place := Repairing(0))
    else FrameDropped(s)
  }

  function FreshSent(s: State, f: InFlight, p: Packet, now: int, recordedAt: int): State {
    s.(place := Stepping, inFlight := Some(f.(next := f.next + 1)),
       video := Recorded(VIDEO_WINDOW, s.video, NumberOf(p), Entry(p, recordedAt)),
       log := s.log + [Fresh(s.generation, f.next, p, now, f.frame.deadline, recordedAt)])
  }

  function FreshTried(s: State, f: InFlight, granted: bool, now: int, accepted: bool, recordedAt: int): State
    requires f.next < |f.frame.packets|
  {
    var p := f.frame.packets[f.next];
    if !s.streaming || f.frame.generation != s.generation then FrameDropped(s)
    else if granted && now < f.frame.deadline && accepted then FreshSent(s, f, p, now, recordedAt)
    else FrameDropped(Abandoned(s))
  }

  // ------------------------------------------------------------------------ the steps

  datatype Event =
    | Detach(connected: bool)
    | Reset
    | Announce
    | Stop
    | BeginCapture(now: int)
    | Offer(data: seq<byte>, ptsUsec: int, keyframe: bool, now: int)
    | Voice(packet: Packet, accepted: bool, now: int)
    | Request(video: bool, seqNo: int, now: int)
    | Wake
    | TakeRepair
    | TryRepair(granted: bool, now: int, accepted: bool)
    | TakeFrame
    | Advance
    | TryFresh(granted: bool, now: int, accepted: bool, recordedAt: int)

  /** The thread that would take this step stands before it. */
  predicate Enabled(s: State, e: Event) {
    match e
    case Detach(_) => !s.resetDue
    case Reset => s.resetDue
    case Announce => !s.resetDue
    case BeginCapture(_) => s.capture.None?
    case Offer(_, _, _, _) => s.capture.Some?
    case Wake => s.place == Waiting && s.inFlight.None?
    case TakeRepair => s.place.Repairing?
    case TryRepair(_, _, _) => s.place.Holding?
    case TakeFrame => s.place == Repaired && s.inFlight.None?
    case Advance => s.place == Stepping && s.inFlight.Some?
    case TryFresh(_, _, _, _) =>
      s.place == Repaired && s.inFlight.Some? && s.inFlight.value.next < |s.inFlight.value.frame.packets|
    case _ => true
  }

  ghost function Done(g: Config, s: State, e: Event): State
    requires Enabled(s, e)
  {
    match e
    case Detach(connected) => Detached(s, connected)
    case Reset => QueueReset(s)
    case Announce => Announced(s)
    case Stop => s.(running := false)
    case BeginCapture(now) => s.(capture := Some(now + MAX_SEND_AGE))
    case Offer(data, ptsUsec, keyframe, now) => Offered(g, s, data, ptsUsec, keyframe, now)
    case Voice(p, accepted, now) => Voiced(s, p, accepted, now)
    case Request(video, seqNo, now) => Requested(s, video, seqNo, now)
    case Wake => Woken(s)
    case TakeRepair => RepairTaken(s, s.place.tried)
    case TryRepair(granted, now, accepted) => RepairTried(s, s.place.tried, s.place.repair, granted, now, accepted)
    case TakeFrame => FrameTaken(s)
    case Advance => Advanced(s, s.inFlight.value)
    case TryFresh(granted, now, accepted, recordedAt) =>
      FreshTried(s, s.inFlight.value, granted, now, accepted, recordedAt)
  }

  // ------------------------------------------------------------------------ the server

  class RtpServer {
    const packer: VideoPacketizer
    const videoRetx: RetransmitBuffer
    const audioRetx: RetransmitBuffer
    var peerStreaming: bool
    var peerKnown: bool
    var resetDue: bool
    var running: bool
    var sendQ: seq<VideoFrame>
    var repairQ: seq<RepairPacket>
    var queuedPackets: int
    var sendGeneration: nat
    var awaitingKeyframe: bool
    var captureDeadline: Option<int>
    var place: Place
    var inFlight: Option<InFlight>
    ghost var log: seq<Act>

    ghost predicate Valid()
      reads this, packer, videoRetx, audioRetx
    {
      packer.Valid() && videoRetx != audioRetx
      && videoRetx.capacity == VIDEO_WINDOW && audioRetx.capacity == AUDIO_WINDOW
    }

    ghost function Settings(): Config
      reads this, packer
    {
      Config(packer.codec, packer.ssrc)
    }

    ghost function Current(): State
      reads this, packer, videoRetx, audioRetx
    {
      State(peerStreaming, peerKnown, resetDue, running, sendQ, repairQ, queuedPackets, sendGeneration,
            awaitingKeyframe, videoRetx.State(), audioRetx.State(), packer.seqNo, captureDeadline, place,
            inFlight, log)
    }

    constructor (codec: Codec, ssrc: int)
      requires 0 <= ssrc < TWO32
      ensures Valid() && Settings() == Config(codec, ssrc) && Current() == INITIAL
      ensures fresh(packer) && fresh(videoRetx) && fresh(audioRetx)
    {
      packer := new VideoPacketizer(codec, ssrc);
      videoRetx := new RetransmitBuffer(VIDEO_WINDOW);
      audioRetx := new RetransmitBuffer(AUDIO_WINDOW);
      peerStreaming, peerKnown, resetDue, running := false, false, false, true;
      sendQ, repairQ, queuedPackets, sendGeneration, awaitingKeyframe := [], [], 0, 0, true;
      captureDeadline, place, inFlight, log := None, Waiting, None, [];
    }

    /** The first region of on_connect and of on_disconnect. */
    method Detach(connected: bool)
      requires Valid() && Enabled(Current(), Event.Detach(connected))
      modifies this
      ensures Valid() && Current() == Detached(old(Current()), connected)
    {
      peerStreaming, peerKnown := false, connected;
      resetDue := true;
    }

    method ResetVideoQueue()
      requires Valid() && Enabled(Current(), Reset)
      modifies this, videoRetx, audioRetx
      ensures Valid() && Current() == QueueReset(old(Current()))
    {
      Abandon();
      audioRetx.Clear();
      resetDue := false;
    }

    /** READY is refused before a connection. */
    method Announce()
      requires Valid() && Enabled(Current(), Event.Announce)
      modifies this
      ensures Valid() && Current() == Announced(old(Current()))
    {
      if !peerKnown { return; }
      peerStreaming := true;
    }

    method Stop()
      requires Valid()
      modifies this
      ensures Valid() && Current() == old(Current()).(running := false)
    {
      running := false;
    }

    method BeginCapture(now: int)
      requires Valid() && Enabled(Current(), Event.BeginCapture(now))
      modifies this
      ensures Valid() && Current() == old(Current()).(capture := Some(now + MAX_SEND_AGE))
    {
      captureDeadline := Some(now + MAX_SEND_AGE);
    }

    /** Shared by every path that gives up what is queued. */
    method Abandon()
      requires Valid()
      modifies this, videoRetx
      ensures Valid() && Current() == Abandoned(old(Current())) && sendGeneration == old(sendGeneration) + 1
    {
      sendQ, repairQ := [], [];
      videoRetx.Clear();
      queuedPackets := 0;
      sendGeneration := sendGeneration + 1;
      awaitingKeyframe := true;
    }

    /** Its second half: what is queued may have expired, or the packets may not fit. */
    method Enqueue(packets: seq<Packet>, deadline: int, keyframe: bool, now: int) returns (requestKeyframe: bool)
      requires Valid()
      modifies this, videoRetx
      ensures Valid() && Current() == Enqueued(old(Current()), packets, deadline, keyframe, now)
      ensures requestKeyframe <==> awaitingKeyframe
    {
      requestKeyframe := false;
      if (|sendQ| > 0 && now >= sendQ[0].deadline) || queuedPackets + |packets| > MAX_QUEUED {
        Abandon();
      }
      if (awaitingKeyframe && !keyframe) || |packets| > MAX_QUEUED {
        awaitingKeyframe := true;
        requestKeyframe := true;
      } else {
        awaitingKeyframe := false;
        queuedPackets := queuedPackets + |packets|;
        sendQ := sendQ + [VideoFrame(packets, deadline, sendGeneration)];
      }
    }

    /** The locked region of broadcast_video; reports whether the encoder is asked for a keyframe. */
    method BroadcastVideo(data: seq<byte>, ptsUsec: int, keyframe: bool, now: int) returns (requestKeyframe: bool)
      requires Valid() && Enabled(Current(), Offer(data, ptsUsec, keyframe, now))
      modifies this, packer, videoRetx
      ensures Valid() && Settings() == old(Settings())
      ensures Current() == Offered(Settings(), old(Current()), data, ptsUsec, keyframe, now)
      ensures requestKeyframe <==>
        (awaitingKeyframe && old(Accepting(Current(), keyframe))
         && PacketsFor(Settings(), old(Current()), data, ptsUsec) != [])
    {
      hide UnitPackets, Enqueued, Abandoned, Nals, Evicted, Recorded;
      requestKeyframe := false;
      var deadline := captureDeadline.value;
      captureDeadline := None;
      if !peerStreaming || (awaitingKeyframe && !keyframe) { return; }
      var packets := packer.Packetize(data, ptsUsec, []);
      assert packets == PacketsFor(Settings(), old(Current()), data, ptsUsec) by {
        assert [] + packets == packets;
      }
      if |packets| == 0 {
        assert Current() == old(Current()).(capture := None);
        return;
      }
      assert Current() == old(Current()).(capture := None, seqNo := packer.seqNo);
      requestKeyframe := Enqueue(packets, deadline, keyframe, now);
    }

    /** One packet of broadcast_audio, already given to the socket. */
    method BroadcastAudio(packet: Packet, accepted: bool, now: int)
      requires Valid()
      modifies audioRetx
      ensures Valid() && Current() == Voiced(old(Current()), packet, accepted, now)
    {
      if !peerStreaming { return; }
      if !accepted { return; }
      audioRetx.Record(NumberOf(packet), packet, now);
    }

    /** The scan of the repair queue in handle_rtcp. */
    method AlreadyQueued(video: bool, seqNo: int) returns (found: bool)
      ensures found <==> Queued(repairQ, video, seqNo)
    {
      for i := 0 to |repairQ|
        invariant forall j :: 0 <= j < i ==> !(repairQ[j].video == video && NumberOf(repairQ[j].packet) == seqNo)
      {
        if repairQ[i].video == video && NumberOf(repairQ[i].packet) == seqNo {
          assert repairQ[i] in repairQ;
          return true;
        }
      }
      return false;
    }

    method Request(video: bool, seqNo: int, now: int)
      requires Valid()
      modifies this
      ensures Valid() && Current() == Requested(old(Current()), video, seqNo, now)
    {
      if !peerStreaming || |repairQ| >= MAX_REPAIRS { return; }
      var found := AlreadyQueued(video, seqNo);
      if found { return; }
      var buf := if video then videoRetx else audioRetx;
      var e := buf.Get(seqNo);
      if e.Some? && now - e.value.sentAt < MAX_SEND_AGE {
        var deadline := Min(e.value.sentAt + MAX_SEND_AGE, now + MAX_REPAIR_WAIT);
        repairQ := repairQ + [RepairPacket(e.value.packet, deadline, sendGeneration, video)];
      }
    }

    method Wake()
      requires Valid() && Enabled(Current(), Event.Wake)
      modifies this
      ensures Valid() && Current() == Woken(old(Current()))
    {
      if running && (|sendQ| > 0 || |repairQ| > 0) {
        place := Repairing(0);
      }
    }

    method TakeRepair()
      requires Valid() && Enabled(Current(), Event.TakeRepair)
      modifies this
      ensures Valid() && Current() == RepairTaken(old(Current()), old(place.tried))
    {
      if place.tried < REPAIRS_AT_ONCE && running && |repairQ| > 0 {
        place := Holding(place.tried + 1, repairQ[0]);
        repairQ := repairQ[1..];
      } else {
        place := Repaired;
      }
    }

    method TryRepair(granted: bool, now: int, accepted: bool)
      requires Valid() && Enabled(Current(), Event.TryRepair(granted, now, accepted))
      modifies this
      ensures Valid()
      ensures Current() == RepairTried(old(Current()), old(place.tried), old(place.repair), granted, now, accepted)
    {
      var repair := place.repair;
      place := Repairing(place.tried);
      var sent := false;
      if granted {
        if !(!peerStreaming || repair.generation != sendGeneration || now >= repair.deadline) {
          sent := accepted;
        }
      }
      log := log + [Repair(repair.generation, repair.packet, repair.video, now, sent)];
    }

    method TakeFrame()
      requires Valid() && Enabled(Current(), Event.TakeFrame)
      modifies this
      ensures Valid() && Current() == FrameTaken(old(Current()))
    {
      if |sendQ| == 0 {
        place := Waiting;
        return;
      }
      var frame := sendQ[0];
      sendQ := sendQ[1..];
      queuedPackets := queuedPackets - |frame.packets|;
      inFlight := Some(InFlight(frame, 0));
      place := Stepping;
    }

    method Advance()
      requires Valid() && Enabled(Current(), Event.Advance)
      modifies this
      ensures Valid() && Current() == Advanced(old(Current()), old(inFlight.value))
    {
      if inFlight.value.next < |inFlight.value.frame.packets| && running {
        place := Repairing(0);
      } else {
        inFlight := None;
        place := Waiting;
      }
    }

    /** The locked region of the packet loop; reports whether the encoder is asked for a keyframe. */
    method TryFresh(granted: bool, now: int, accepted: bool, recordedAt: int) returns (requestKeyframe: bool)
      requires Valid() && Enabled(Current(), Event.TryFresh(granted, now, accepted, recordedAt))
      modifies this, videoRetx
      ensures Valid()
      ensures Current() == FreshTried(old(Current()), old(inFlight.value), granted, now, accepted, recordedAt)
      ensures requestKeyframe <==> sendGeneration > old(sendGeneration)
    {
      hide Recorded, Abandoned;
      requestKeyframe := false;
      var frame, next := inFlight.value.frame, inFlight.value.next;
      var pkt := frame.packets[next];
      if !peerStreaming || frame.generation != sendGeneration {
        inFlight, place := None, Waiting;
        return;
      }
      var sent := false;
      if granted && now < frame.deadline {
        sent := accepted;
      }
      if !sent {
        Abandon();
        requestKeyframe := true;
        inFlight, place := None, Waiting;
      } else {
        videoRetx.Record(NumberOf(pkt), pkt, recordedAt);
        log := log + [Fresh(sendGeneration, next, pkt, now, frame.deadline, recordedAt)];
        inFlight, place := Some(InFlight(frame, next + 1)), Stepping;
      }
    }
  }
}
