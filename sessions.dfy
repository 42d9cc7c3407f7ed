/**
 * The per-user flags the handlers keep in `context.user_data`: `mode`
 * (absent means 'chat') and `state` ('waiting_proof' or cleared).
 */
module Sessions {

  datatype Mode = Chat | Research | Web | Image

  datatype Session = Session(mode: Mode, waitingProof: bool)

  /** A user whose `user_data` holds neither key. */
  const Fresh: Session := Session(Chat, false)

  /** The four reply-keyboard texts `handle_buttons` is registered for. */
  datatype Button = MyAccount | GenerateImage | DeepResearch | WebSearch

  /**
   * The flags after `handle_buttons`: image mode only for a valid PRO user,
   * the two research modes for anyone, nothing for the account page.
   */
  function PressButton(s: Session, b: Button, proValid: bool): (r: Session)
    ensures r.waitingProof == s.waitingProof
    ensures r.mode == Image ==> s.mode == Image || proValid
    ensures b == GenerateImage ==> (r.mode == Image <==> proValid || s.mode == Image)
    ensures b == MyAccount || (b == GenerateImage && !proValid) ==> r == s
    ensures b == DeepResearch ==> r.mode == Research
    ensures b == WebSearch ==> r.mode == Web
  {
    match b
    case MyAccount => s
    case GenerateImage => if proValid then s.(mode := Image) else s
    case DeepResearch => s.(mode := Research)
    case WebSearch => s.(mode := Web)
  }

  /** What `process_ai` does with a message. */
  datatype Route = NotSubscribed | ForwardProof | MakeImage | AskAi(detailed: bool)

  /**
   * Non-members are turned away; a user waiting to send proof has the message
   * forwarded and no AI call is made; otherwise the mode picks the backend.
   */
  function RouteOf(s: Session, subscribed: bool): (r: Route)
    ensures r == NotSubscribed <==> !subscribed
    ensures r == ForwardProof <==> subscribed && s.waitingProof
    ensures r == MakeImage <==> subscribed && !s.waitingProof && s.mode == Image
    ensures r.AskAi? ==> (r.detailed <==> s.mode == Research)
  {
    if !subscribed then NotSubscribed
    else if s.waitingProof then ForwardProof
    else if s.mode == Image then MakeImage
    else AskAi(s.mode == Research)
  }

  /**
   * The flags after `process_ai`: a forwarded proof clears `state`, a sent
   * image resets the mode to chat; when the step raises (`failed`), the
   * assignment after it is never reached.
   */
  function AfterMessage(s: Session, route: Route, failed: bool): (r: Session)
    ensures r.waitingProof ==> s.waitingProof
    ensures r.mode == Image ==> s.mode == Image
    ensures route == ForwardProof && !failed ==> !r.waitingProof && r.mode == s.mode
    ensures route == MakeImage && !failed ==> r.mode == Chat && r.waitingProof == s.waitingProof
    ensures failed || route.NotSubscribed? || route.AskAi? ==> r == s
  {
    match route
    case ForwardProof => if failed then s else s.(waitingProof := false)
    case MakeImage => if failed then s else s.(mode := Chat)
    case _ => s
  }

  /** The flags after `callback_handler`: only 'send_proof' sets `state`. */
  function AfterCallback(s: Session, data: string): (r: Session)
    ensures r.mode == s.mode
    ensures r.waitingProof <==> s.waitingProof || data == "send_proof"
  {
    if data == "send_proof" then s.(waitingProof := true) else s
  }

  /** Asking to send proof and then sending it, as a member, forwards it and leaves the flag clear. */
  lemma ProofRequestThenSubmit(s: Session)
    ensures var waiting := AfterCallback(s, "send_proof");
      RouteOf(waiting, true) == ForwardProof && !AfterMessage(waiting, ForwardProof, false).waitingProof
  {
  }

  /** Image mode is only ever entered through the button, and only with valid PRO. */
  lemma ImageModeNeedsPro(s: Session, b: Button, proValid: bool)
    requires s.mode != Image
    requires PressButton(s, b, proValid).mode == Image
    ensures b == GenerateImage && proValid
  {
  }
}
