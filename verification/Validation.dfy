/** Bounds on decoded frame contents (ferrotunnel-protocol/src/validation.rs). */
module Validation {
  import opened Seqs
  import opened Frames

  datatype ValidationLimits = ValidationLimits(
    maxFrameBytes: nat,
    maxTokenLen: nat,
    maxCapabilities: nat,
    maxCapabilityLen: nat,
    maxPayloadBytes: nat,
    maxMetadataEntries: nat,
    maxNameLen: nat,
    maxMetadataValueLen: nat,
    maxHeaders: nat,
    maxHeaderLen: nat,
    maxErrorMessageLen: nat,
    maxUrlLen: nat)

  /** The kinds of rejection; the measured length and limit they print are left out. */
  datatype ValidationError =
    | TokenTooLong | TooManyCapabilities | CapabilityTooLong | PayloadTooLarge
    | TooManyEntries | FieldTooLong | InvalidVersionRange

  type Verdict = Option<ValidationError>

  function Check(ok: bool, e: ValidationError): Verdict {
    if ok then None else Some(e)
  }

  function Then(first: Verdict, second: Verdict): Verdict {
    if first.Some? then first else second
  }

  function ValidateCapabilities(caps: seq<Text>, l: ValidationLimits): Verdict {
    if |caps| > l.maxCapabilities then Some(TooManyCapabilities) else ScanCapabilities(caps, l)
  }

  function ScanCapabilities(caps: seq<Text>, l: ValidationLimits): Verdict {
    if caps == [] then None
    else Then(Check(|caps[0]| <= l.maxCapabilityLen, CapabilityTooLong), ScanCapabilities(caps[1..], l))
  }

  function ScanHeaders(hs: seq<(Text, Text)>, l: ValidationLimits): Verdict {
    if hs == [] then None
    else Then(Then(Check(|hs[0].0| <= l.maxHeaderLen, FieldTooLong), Check(|hs[0].1| <= l.maxHeaderLen, FieldTooLong)),
              ScanHeaders(hs[1..], l))
  }

  /** Every offending entry is rejected with the same error, so iteration order does not matter. */
  function ScanMetadata(m: map<Text, Text>, l: ValidationLimits): Verdict {
    if forall k :: k in m ==> |k| <= l.maxNameLen && |m[k]| <= l.maxMetadataValueLen then None else Some(FieldTooLong)
  }

  function ValidateFrame(f: Frame, l: ValidationLimits): Verdict {
    match f
    case Handshake(token, tunnelId, minV, maxV, caps) =>
      Then(Check(|token| <= l.maxTokenLen, TokenTooLong),
           Then(Check(tunnelId.Some? ==> |tunnelId.value| <= l.maxNameLen, FieldTooLong),
                Then(Check(minV <= maxV, InvalidVersionRange), ValidateCapabilities(caps, l))))
    case HandshakeAck(_, _, _, caps) => ValidateCapabilities(caps, l)
    case Register(name, _, metadata) =>
      Then(Check(|name| <= l.maxNameLen, FieldTooLong),
           Then(Check(|metadata| <= l.maxMetadataEntries, TooManyEntries), ScanMetadata(metadata, l)))
    case RegisterAck(url, _) => Check(|url| <= l.maxUrlLen, FieldTooLong)
    case OpenStream(_, _, headers, _, _) =>
      Then(Check(|headers| <= l.maxHeaders, TooManyEntries), ScanHeaders(headers, l))
    case Data(_, data, _) => Check(|data| <= l.maxPayloadBytes, PayloadTooLarge)
    case CloseStream(_, reason) =>
      Check(reason.ErrorClose? ==> |reason.message| <= l.maxErrorMessageLen, FieldTooLong)
    case Error(_, _, message) => Check(|message| <= l.maxErrorMessageLen, FieldTooLong)
    case PluginData(id, payload) =>
      Then(Check(|id| <= l.maxNameLen, FieldTooLong), Check(|payload| <= l.maxPayloadBytes, PayloadTooLarge))
    case StreamAck(_, _) => None
    case Heartbeat(_) => None
    case HeartbeatAck(_) => None
  }

  /** What an accepted frame is: every variable-length part of the frame is bounded. */
  ghost predicate Bounded(f: Frame, l: ValidationLimits) {
    match f
    case Handshake(token, tunnelId, minV, maxV, caps) =>
      |token| <= l.maxTokenLen && (forall t :: tunnelId == Some(t) ==> |t| <= l.maxNameLen)
      && minV <= maxV && BoundedCapabilities(caps, l)
    case HandshakeAck(_, _, _, caps) => BoundedCapabilities(caps, l)
    case Register(name, _, metadata) =>
      |name| <= l.maxNameLen && |metadata| <= l.maxMetadataEntries
      && forall k :: k in metadata ==> |k| <= l.maxNameLen && |metadata[k]| <= l.maxMetadataValueLen
    case RegisterAck(url, _) => |url| <= l.maxUrlLen
    case OpenStream(_, _, headers, _, _) =>
      |headers| <= l.maxHeaders
      && forall i :: 0 <= i < |headers| ==> |headers[i].0| <= l.maxHeaderLen && |headers[i].1| <= l.maxHeaderLen
    case Data(_, data, _) => |data| <= l.maxPayloadBytes
    case CloseStream(_, reason) => forall m :: reason == ErrorClose(m) ==> |m| <= l.maxErrorMessageLen
    case Error(_, _, message) => |message| <= l.maxErrorMessageLen
    case PluginData(id, payload) => |id| <= l.maxNameLen && |payload| <= l.maxPayloadBytes
    case _ => true
  }

  ghost predicate BoundedCapabilities(caps: seq<Text>, l: ValidationLimits) {
    |caps| <= l.maxCapabilities && forall i :: 0 <= i < |caps| ==> |caps[i]| <= l.maxCapabilityLen
  }

  lemma {:induction false} ScanCapabilitiesIff(caps: seq<Text>, l: ValidationLimits)
    ensures ScanCapabilities(caps, l).None? <==> forall i :: 0 <= i < |caps| ==> |caps[i]| <= l.maxCapabilityLen
  {
    if caps == [] {
    } else {
      ScanCapabilitiesIff(caps[1..], l);
      assert forall i :: 0 < i < |caps| ==> caps[i] == caps[1..][i - 1];
    }
  }

  lemma {:induction false} ScanHeadersIff(hs: seq<(Text, Text)>, l: ValidationLimits)
    ensures ScanHeaders(hs, l).None?
      <==> forall i :: 0 <= i < |hs| ==> |hs[i].0| <= l.maxHeaderLen && |hs[i].1| <= l.maxHeaderLen
  {
    if hs == [] {
    } else {
      ScanHeadersIff(hs[1..], l);
      assert forall i :: 0 < i < |hs| ==> hs[i] == hs[1..][i - 1];
    }
  }

  /** A frame is accepted exactly when all of its variable-length contents are within the limits. */
  lemma ValidateIffBounded(f: Frame, l: ValidationLimits)
    ensures ValidateFrame(f, l).None? <==> Bounded(f, l)
  {
    match f
    case Handshake(_, _, _, _, caps) => ScanCapabilitiesIff(caps, l);
    case HandshakeAck(_, _, _, caps) => ScanCapabilitiesIff(caps, l);
    case OpenStream(_, _, headers, _, _) => ScanHeadersIff(headers, l);
    case _ =>
  }
}
