/**
 * The peer-call hook (src/hooks/usePeer.js): each participant derives its own peer id and
 * the id it calls from the room code and its role; the user places the call once its peer
 * is open; each call's stream and close events update the held state.
 * The PeerJS connection and getUserMedia are outside the model: their callbacks arrive as
 * the event methods of `PeerSession`, and calls and media streams are opaque handles.
 */
module Peer {
  import opened Wrappers

  const REVIEWER := "reviewer"
  const USER := "user"
  const REVIEWER_SUFFIX := "-reviewer"
  const USER_SUFFIX := "-user"

  /** The suffix the own id carries: the reviewer's for the reviewer role, the user's for every other role. */
  function OwnSuffix(role: string): (s: string)
    ensures s == REVIEWER_SUFFIX <==> role == REVIEWER
    ensures s == USER_SUFFIX <==> role != REVIEWER
  {
    if role == REVIEWER then REVIEWER_SUFFIX else USER_SUFFIX
  }

  function OtherSuffix(role: string): (s: string)
    ensures s == USER_SUFFIX <==> role == REVIEWER
    ensures s == REVIEWER_SUFFIX <==> role != REVIEWER
  {
    if role == REVIEWER then USER_SUFFIX else REVIEWER_SUFFIX
  }

  /** The peer id this participant registers under. */
  function MyId(role: string, code: string): (id: string)
    ensures |code| < |id| && id[..|code|] == code
  {
    code + OwnSuffix(role)
  }

  /** The peer id this participant would call. */
  function TargetId(role: string, code: string): (id: string)
    ensures |code| < |id| && id[..|code|] == code
  {
    code + OtherSuffix(role)
  }

  /** Whether the participant places the call when its peer opens. */
  predicate CallsOnOpen(role: string) {
    role == USER
  }

  /** Each side calls exactly the id the other side registers under. */
  lemma IdsAreSymmetric(code: string)
    ensures TargetId(REVIEWER, code) == MyId(USER, code)
    ensures TargetId(USER, code) == MyId(REVIEWER, code)
  {
  }

  /** Any role other than the reviewer's takes the user's ids, but only the user role itself calls. */
  lemma OtherRolesActAsUserWithoutCalling(role: string, code: string)
    requires role != REVIEWER
    ensures MyId(role, code) == MyId(USER, code) && TargetId(role, code) == TargetId(USER, code)
    ensures CallsOnOpen(role) <==> role == USER
  {
  }

  /** A participant never calls itself. */
  lemma OwnIdIsNotTarget(role: string, code: string)
    ensures MyId(role, code) != TargetId(role, code)
  {
    assert |MyId(role, code)| != |TargetId(role, code)|;
  }

  /** A user id never equals a reviewer id, whatever the two codes are. */
  lemma {:induction false} UserAndReviewerIdsNeverCollide(userCode: string, reviewerCode: string)
    ensures MyId(USER, userCode) != MyId(REVIEWER, reviewerCode)
  {
    var u := MyId(USER, userCode);
    var r := MyId(REVIEWER, reviewerCode);
    assert u[|u| - 5] == '-' && r[|r| - 5] == 'i';
  }

  /** Within one role the id determines the room code. */
  lemma {:induction false} IdDeterminesCode(role: string, code1: string, code2: string)
    requires MyId(role, code1) == MyId(role, code2)
    ensures code1 == code2
  {
    var id := MyId(role, code1);
    assert |code1| == |code2|;
    assert code1 == id[..|code1|] == code2;
  }

  /** A PeerJS media connection, identified by the order in which it arose. */
  type CallId = nat
  /** A media stream handle. */
  type StreamId = nat

  class PeerSession {
    const role: string
    const code: string
    /** A Peer was constructed and its open, call and error handlers installed (the effect ran). */
    var created: bool
    /** The effect's cleanup destroyed the peer; React ignores state updates after unmount. */
    var destroyed: bool
    /** The `peer` state: set once the peer has opened. */
    var peerOpen: bool
    var call: Option<CallId>
    var remoteStream: Option<StreamId>
    var localStream: Option<StreamId>
    var status: string
    /** The calls whose stream and close handlers setupCallEvents installed. */
    var wired: set<CallId>
    /** startCall is waiting for getUserMedia. */
    var awaitingMedia: bool

    ghost predicate Valid()
      reads this
    {
      && (created <==> code != "")
      && (!created ==> !peerOpen && call == None && remoteStream == None && wired == {}
                       && status == "Initializing..." && !awaitingMedia)
      && (awaitingMedia ==> peerOpen && CallsOnOpen(role))
      && (call.Some? ==> call.value in wired)
      && (remoteStream.Some? ==> wired != {})
      && (localStream.Some? ==> CallsOnOpen(role))
    }

    /** Mounting the hook: a peer registered under MyId is created only for a non-empty code. */
    constructor (role: string, code: string)
      ensures Valid() && this.role == role && this.code == code
      ensures created <==> code != ""
      ensures !destroyed && !peerOpen && call == None && remoteStream == None && localStream == None
      ensures status == "Initializing..." && wired == {} && !awaitingMedia
    {
      this.role := role;
      this.code := code;
      created := code != "";
      destroyed := false;
      peerOpen := false;
      call := None;
      remoteStream := None;
      localStream := None;
      status := "Initializing...";
      wired := {};
      awaitingMedia := false;
    }

    /** Whether PeerJS events still reach the handlers. */
    predicate Live()
      reads this
    {
      created && !destroyed
    }

    /** setupCallEvents: hold the call and install its stream and close handlers. */
    method SetupCallEvents(c: CallId)
      requires Valid() && created
      modifies this
      ensures Valid() && call == Some(c) && wired == old(wired) + {c}
      ensures remoteStream == old(remoteStream) && localStream == old(localStream)
      ensures status == old(status) && peerOpen == old(peerOpen) && awaitingMedia == old(awaitingMedia)
      ensures created == old(created) && destroyed == old(destroyed)
    {
      call := Some(c);
      wired := wired + {c};
    }

    /** The peer's open handler: report the id, hold the peer and, for the user role only, start the call. */
    method OnOpen()
      requires Valid()
      modifies this
      ensures Valid()
      ensures !old(Live()) ==> unchanged(this)
      ensures old(Live()) ==>
        && peerOpen && created && !destroyed
        && (awaitingMedia <==> CallsOnOpen(role))
        && status == (if CallsOnOpen(role) then "Calling " + TargetId(role, code) + "..."
                      else "Connected as " + MyId(role, code))
        && call == old(call) && remoteStream == old(remoteStream) && wired == old(wired)
        && localStream == old(localStream)
    {
      if !Live() {
        return;
      }
      status := "Connected as " + MyId(role, code);
      peerOpen := true;
      if role == USER {
        status := "Calling " + TargetId(role, code) + "...";
        awaitingMedia := true;
      }
    }

    /**
     * getUserMedia resolved for a pending startCall: keep the stream in the ref and wire the
     * outgoing call. After unmount the ref is still written, but no held state changes.
     */
    method OnMediaGranted(stream: StreamId, outgoing: CallId)
      requires Valid()
      modifies this
      ensures Valid()
      ensures created == old(created) && destroyed == old(destroyed) && peerOpen == old(peerOpen)
      ensures !old(awaitingMedia) ==> unchanged(this)
      ensures old(awaitingMedia) ==> !awaitingMedia && localStream == Some(stream)
      ensures old(awaitingMedia) && old(Live()) ==>
        && call == Some(outgoing) && wired == old(wired) + {outgoing}
        && status == old(status) && remoteStream == old(remoteStream)
      ensures old(awaitingMedia) && !old(Live()) ==>
        && call == old(call) && wired == old(wired)
        && status == old(status) && remoteStream == old(remoteStream)
        && peerOpen == old(peerOpen) && destroyed == old(destroyed)
    {
      if !awaitingMedia {
        return;
      }
      localStream := Some(stream);
      awaitingMedia := false;
      if Live() {
        SetupCallEvents(outgoing);
      }
    }

    /** getUserMedia (or placing the call) failed: report the message; no call is held. After unmount nothing is reported. */
    method OnMediaFailed(message: string)
      requires Valid()
      modifies this
      ensures Valid()
      ensures created == old(created) && destroyed == old(destroyed) && peerOpen == old(peerOpen)
      ensures localStream == old(localStream)
      ensures !old(awaitingMedia) ==> unchanged(this)
      ensures old(awaitingMedia) ==>
        && !awaitingMedia
        && call == old(call) && remoteStream == old(remoteStream) && wired == old(wired)
        && localStream == old(localStream)
      ensures old(awaitingMedia) && old(Live()) ==> status == "Media Error: " + message
      ensures old(awaitingMedia) && !old(Live()) ==> status == old(status)
    {
      if !awaitingMedia {
        return;
      }
      awaitingMedia := false;
      if Live() {
        status := "Media Error: " + message;
      }
    }

    /** The peer's call handler: answer the incoming call and wire it. */
    method OnIncomingCall(incoming: CallId)
      requires Valid()
      modifies this
      ensures Valid()
      ensures created == old(created) && destroyed == old(destroyed) && peerOpen == old(peerOpen)
      ensures localStream == old(localStream)
      ensures !old(Live()) ==> unchanged(this)
      ensures old(Live()) ==>
        && call == Some(incoming) && wired == old(wired) + {incoming}
        && status == old(status) && remoteStream == old(remoteStream) && awaitingMedia == old(awaitingMedia)
    {
      if !Live() {
        return;
      }
      SetupCallEvents(incoming);
    }

    /** The peer's error handler. */
    method OnError(errorType: string)
      requires Valid()
      modifies this
      ensures Valid()
      ensures created == old(created) && destroyed == old(destroyed) && peerOpen == old(peerOpen)
      ensures localStream == old(localStream)
      ensures !old(Live()) ==> unchanged(this)
      ensures old(Live()) ==>
        && status == "Error: " + errorType
        && call == old(call) && remoteStream == old(remoteStream) && wired == old(wired)
        && awaitingMedia == old(awaitingMedia)
    {
      if !Live() {
        return;
      }
      status := "Error: " + errorType;
    }

    /** A wired call's stream handler: hold the remote stream, whichever wired call delivered it. */
    method OnStream(c: CallId, stream: StreamId)
      requires Valid()
      modifies this
      ensures Valid()
      ensures created == old(created) && destroyed == old(destroyed) && peerOpen == old(peerOpen)
      ensures localStream == old(localStream)
      ensures !(old(Live()) && c in old(wired)) ==> unchanged(this)
      ensures old(Live()) && c in old(wired) ==>
        && remoteStream == Some(stream)
        && call == old(call) && status == old(status) && wired == old(wired)
        && awaitingMedia == old(awaitingMedia)
    {
      if !Live() || c !in wired {
        return;
      }
      remoteStream := Some(stream);
    }

    /** A wired call's close handler: report the end and drop both the call and the remote stream. */
    method OnClose(c: CallId)
      requires Valid()
      modifies this
      ensures Valid()
      ensures created == old(created) && destroyed == old(destroyed) && peerOpen == old(peerOpen)
      ensures localStream == old(localStream)
      ensures !(old(Live()) && c in old(wired)) ==> unchanged(this)
      ensures old(Live()) && c in old(wired) ==>
        && status == "Call Ended" && call == None && remoteStream == None
        && wired == old(wired) && awaitingMedia == old(awaitingMedia)
    {
      if !Live() || c !in wired {
        return;
      }
      status := "Call Ended";
      call := None;
      remoteStream := None;
    }

    /** The effect's cleanup: destroy the peer; no handler changes held React state afterwards. */
    method Unmount()
      requires Valid()
      modifies this
      ensures Valid() && destroyed && !Live()
      ensures call == old(call) && remoteStream == old(remoteStream) && status == old(status)
      ensures created == old(created) && peerOpen == old(peerOpen) && wired == old(wired)
      ensures localStream == old(localStream) && awaitingMedia == old(awaitingMedia)
    {
      destroyed := true;
    }
  }

  /** A user's media grant that resolves after unmount fills the local-stream ref and changes no held state. */
  method GrantAfterUnmount(code: string, stream: StreamId, outgoing: CallId) returns (p: PeerSession)
    requires code != ""
    ensures p.Valid() && p.destroyed && p.localStream == Some(stream) && !p.awaitingMedia
    ensures p.call == None && p.remoteStream == None && p.wired == {}
    ensures p.status == "Calling " + TargetId(USER, code) + "..."
  {
    p := new PeerSession(USER, code);
    p.OnOpen();
    p.Unmount();
    p.OnMediaGranted(stream, outgoing);
  }
}
