/**
 The client half of the RFB protocol (RFC 6143, sections 7.1 to 7.3 and 7.5, plus the
 message types 150, 248, 251 and 255), written as a grammar: what a client may say,
 and the bytes it says it with. Nothing here looks at a buffer or decides how much of
 it is complete; that is the filter's job, and the filter is proved against this.
 */
module RfbProtocol {
  type byte = b: int | 0 <= b < 256

  type bytes = seq<byte>

  const MAX_CLIPBOARD := 0x100_0000 // 16 MiB

  datatype ClientMessage =
    | SetPixelFormat(body: bytes)
    | SetEncodings(pad: byte, hi: byte, lo: byte, encodings: bytes)
    | FramebufferUpdateRequest(body: bytes)
    | EnableContinuousUpdates(body: bytes)
    | ClientFence(head: bytes, length1: byte, payload: bytes)
    | KeyEvent(body: bytes)
    | PointerEvent(body: bytes)
    | ClientCutText(pad3: bytes, length: bytes, text: bytes)
    | SetDesktopSize(size: bytes, count: byte, pad: byte, screens: bytes)
    | QemuKeyEvent(body: bytes)
  {
    /** The field widths the protocol fixes, and the clipboard limit the filter adds. */
    ghost predicate WellFormed() {
      match this
      case SetPixelFormat(body) => |body| == 19
      case SetEncodings(_, hi, lo, encodings) => |encodings| == 4 * U16(hi, lo)
      case FramebufferUpdateRequest(body) => |body| == 9
      case EnableContinuousUpdates(body) => |body| == 9
      case ClientFence(head, length1, payload) => |head| == 7 && |payload| == length1
      case KeyEvent(body) => |body| == 7
      case PointerEvent(body) => |body| == 5
      // The length is a signed number whose magnitude counts the text; a negative one
      // announces the extended clipboard.
      case ClientCutText(pad3, length, text) =>
        && |pad3| == 3 && |length| == 4 && |text| <= MAX_CLIPBOARD
        && U32(length[0], length[1], length[2], length[3]) in {|text|, 0x1_0000_0000 - |text|}
      case SetDesktopSize(size, count, _, screens) => |size| == 5 && |screens| == 16 * count as int
      case QemuKeyEvent(body) => |body| == 11
    }

    /** What a watcher may send: the requests that change nothing on the desktop. */
    predicate Harmless() {
      SetPixelFormat? || SetEncodings? || FramebufferUpdateRequest? || EnableContinuousUpdates? || ClientFence?
    }

    ghost function Encode(): (b: bytes)
      ensures b != []
    {
      match this
      case SetPixelFormat(body) => [0] + body
      case SetEncodings(pad, hi, lo, encodings) => [2, pad, hi, lo] + encodings
      case FramebufferUpdateRequest(body) => [3] + body
      case EnableContinuousUpdates(body) => [150] + body
      case ClientFence(head, length1, payload) => [248] + head + [length1] + payload
      case KeyEvent(body) => [4] + body
      case PointerEvent(body) => [5] + body
      case ClientCutText(pad3, length, text) => [6] + pad3 + length + text
      case SetDesktopSize(size, count, pad, screens) => [251] + size + [count, pad] + screens
      case QemuKeyEvent(body) => [255] + body
    }
  }

  function U16(hi: byte, lo: byte): (n: int)
    ensures 0 <= n < 0x1_0000
  {
    256 * hi + lo
  }

  function U32(b3: byte, b2: byte, b1: byte, b0: byte): (n: int)
    ensures 0 <= n < 0x1_0000_0000
  {
    0x1_0000 * U16(b3, b2) + U16(b1, b0)
  }

  /** One unit of the client's side of a session, in the order a session has them. */
  datatype Item =
    | Version(text: bytes)
    | SecurityType(choice: byte)
    | AuthResponse(response: bytes)
    | ClientInit(shared: byte)
    | Message(message: ClientMessage)
  {
    ghost predicate WellFormed() {
      match this
      case Version(text) => |text| == 12 && AcceptedVersion(text)
      case SecurityType(choice) => choice == 1 || choice == 2
      case AuthResponse(response) => |response| == 16
      case ClientInit(_) => true
      case Message(message) => message.WellFormed()
    }

    ghost function Wire(): (b: bytes)
      ensures WellFormed() ==> b != []
    {
      match this
      case Version(text) => text
      case SecurityType(choice) => [choice]
      case AuthResponse(response) => response
      case ClientInit(shared) => [shared]
      case Message(message) => message.Encode()
    }

    /** Where a session may stand when this item arrives, and where it stands after. */
    predicate AllowedAt(stage: nat) {
      match this
      case Version(_) => stage == 0
      case SecurityType(_) => stage == 1
      case AuthResponse(_) => stage == 2
      case ClientInit(_) => stage == 3
      case Message(_) => stage == 4
    }

    function NextStage(): nat {
      match this
      case Version(_) => 1
      case SecurityType(choice) => if choice == 1 then 3 else 2
      case AuthResponse(_) => 3
      case ClientInit(_) => 4
      case Message(_) => 4
    }
  }

  const RFB_003 := [82, 70, 66, 32, 48, 48, 51, 46] // "RFB 003."
  const RFB_003_003 := [82, 70, 66, 32, 48, 48, 51, 46, 48, 48, 51] // "RFB 003.003"

  predicate AcceptedVersion(text: bytes) {
    RFB_003 <= text && !(RFB_003_003 <= text)
  }

  /** A legal stretch of a session that starts at the given stage. */
  ghost predicate Legal(stage: nat, items: seq<Item>)
    decreases |items|
  {
    items == [] ||
    (items[0].WellFormed() && items[0].AllowedAt(stage) && Legal(items[0].NextStage(), items[1..]))
  }

  ghost function EndStage(stage: nat, items: seq<Item>): nat
    decreases |items|
  {
    if items == [] then stage else EndStage(items[0].NextStage(), items[1..])
  }

  ghost function WireAll(items: seq<Item>): bytes
  {
    if items == [] then [] else items[0].Wire() + WireAll(items[1..])
  }

  /**
   What a watcher's session becomes: the same items in the same order, without the
   messages that could act on the desktop, and with the shared flag set.
   */
  ghost function Visible(items: seq<Item>): seq<Item> {
    if items == [] then []
    else
      var rest := Visible(items[1..]);
      match items[0]
      case ClientInit(_) => [ClientInit(1)] + rest
      case Message(message) => if message.Harmless() then [items[0]] + rest else rest
      case _ => [items[0]] + rest
  }

  /** The visible part of a legal session is itself a legal session, ending at the same stage. */
  lemma {:induction false} VisibleLegal(stage: nat, items: seq<Item>)
    requires Legal(stage, items)
    ensures Legal(stage, Visible(items))
    ensures EndStage(stage, Visible(items)) == EndStage(stage, items)
    decreases |items|
  {
    if items != [] {
      VisibleLegal(items[0].NextStage(), items[1..]);
      var v := Visible(items);
      if items[0].Message? && !items[0].message.Harmless() {
        assert v == Visible(items[1..]);
      } else {
        assert v[1..] == Visible(items[1..]);
      }
    }
  }

  lemma {:induction false} VisibleTwice(items: seq<Item>)
    ensures Visible(Visible(items)) == Visible(items)
  {
    if items != [] {
      VisibleTwice(items[1..]);
      var v := Visible(items);
      if !(items[0].Message? && !items[0].message.Harmless()) {
        assert v[1..] == Visible(items[1..]);
      }
    }
  }
}
