/** The per-chat mode machine of attachEventHandlers (Bot.js:163-647): the
    set `awaitingApiKey`, the map `activeChats` and the four analysis-state
    maps, and the handlers of `/start`, `/startchat`, the four analysis
    commands, the three uploads, `/help`, `/setkey`, plain text and
    `/endchat`. The database lookup of the user's key row, the MIME type of
    a document and whether an analysis ran to completion are inputs; what
    the bot then sends or starts is an outcome tag. */
module ChatModes {
  import opened Base

  datatype MediaKind = Image | Audio | Pdf | Video

  /** `{ state: 'awaitingImage' }` (and its audio, pdf and video forms), or
      `{ state: 'awaitingDescription', fileLink }`. */
  datatype AnalysisState = AwaitingUpload | AwaitingDescription(fileLink: string)

  /** `dbGet('SELECT api_key FROM users WHERE user_id = ?')`: a row, no row,
      or a rejected query. */
  datatype KeyRow = Present | Absent | LookupFailed

  const PdfMime: string := "application/pdf"

  datatype Event =
    | StartCmd(key: KeyRow)
    | StartChatCmd(key: KeyRow)
    | AnalyzeCmd(kind: MediaKind, key: KeyRow)
    | Upload(kind: MediaKind, fileLink: string, mimeType: Option<string>)
    | HelpCmd
    | SetKeyCmd
    | EndChatCmd
      /** `completes`: decrypting the key, the progress message and the
          analysis all returned without throwing. */
    | Text(text: string, key: KeyRow, completes: bool)

  /** What a handler goes on to do, in place of the Persian replies. */
  datatype Outcome =
    | Welcome(returning: bool)
    | NeedApiKey
    | AlreadyActive
      /** the chat is marked active and generateText runs the opening prompt */
    | ChatStarted
    | UploadRequested(kind: MediaKind)
    | UploadReceived(kind: MediaKind, fileLink: string)
    | NotAPdf
    | HelpShown
    | KeyRequested
    | ChatEnded
    | NoActiveChat
    | EmptyKey
      /** validateApiKey and, when valid, addApiKey run on the trimmed key */
    | CheckKey(apiKey: string)
      /** analyzeX runs on the stored file link with the text as request */
    | Analysis(kind: MediaKind, fileLink: string, request: string)
      /** the active-chat branch: the rate limiter, then generateText */
    | Converse(text: string)
    | Menu
      /** handleError reports the error to the chat */
    | Reported
    | Ignored

  /** One chat's entries in the six structures. */
  datatype ChatView = ChatView(awaitingKey: bool, active: bool,
                               image: Option<AnalysisState>, audio: Option<AnalysisState>,
                               pdf: Option<AnalysisState>, video: Option<AnalysisState>)

  const Cleared: ChatView := ChatView(false, false, None, None, None, None)

  function Media(v: ChatView, kind: MediaKind): Option<AnalysisState>
  {
    match kind
    case Image => v.image
    case Audio => v.audio
    case Pdf => v.pdf
    case Video => v.video
  }

  function WithMedia(v: ChatView, kind: MediaKind, s: Option<AnalysisState>): (w: ChatView)
    ensures Media(w, kind) == s
    ensures forall k | k != kind :: Media(w, k) == Media(v, k)
    ensures w.awaitingKey == v.awaitingKey && w.active == v.active
  {
    match kind
    case Image => v.(image := s)
    case Audio => v.(audio := s)
    case Pdf => v.(pdf := s)
    case Video => v.(video := s)
  }

  datatype Reaction = Reaction(view: ChatView, outcome: Outcome)

  /** `/start`: all six structures cleared, then a greeting that depends on
      whether the user already has a key row. */
  function OnStart(v: ChatView, key: KeyRow): Reaction
  {
    Reaction(Cleared, match key
      case Present => Welcome(true)
      case Absent => Welcome(false)
      case LookupFailed => Reported)
  }

  /** `/startchat`: everything but `activeChats` cleared; without a key row
      it stops there; an already active chat stays as it is; otherwise the
      chat becomes active. */
  function OnStartChat(v: ChatView, key: KeyRow): Reaction
  {
    var w := Cleared.(active := v.active);
    match key
    case Absent => Reaction(w, NeedApiKey)
    case LookupFailed => Reaction(w, Reported)
    case Present =>
      if v.active then Reaction(w, AlreadyActive) else Reaction(w.(active := true), ChatStarted)
  }

  /** `/imageanalyze` and its three siblings: everything but the command's
      own map cleared; with a key row the own map is set to await an
      upload, without one it keeps what it held. */
  function OnAnalyzeCommand(v: ChatView, kind: MediaKind, key: KeyRow): Reaction
  {
    var w := WithMedia(Cleared, kind, Media(v, kind));
    match key
    case Absent => Reaction(w, NeedApiKey)
    case LookupFailed => Reaction(w, Reported)
    case Present => Reaction(WithMedia(Cleared, kind, Some(AwaitingUpload)), UploadRequested(kind))
  }

  /** A photo, audio, document or video message: acted on only when the
      kind's own map awaits an upload; a document must be `application/pdf`
      or it is refused and the state kept. */
  function OnUpload(v: ChatView, kind: MediaKind, fileLink: string, mimeType: Option<string>): Reaction
  {
    if Media(v, kind) != Some(AwaitingUpload) then Reaction(v, Ignored)
    else if kind == Pdf && mimeType != Some(PdfMime) then Reaction(v, NotAPdf)
    else Reaction(WithMedia(v, kind, Some(AwaitingDescription(fileLink))), UploadReceived(kind, fileLink))
  }

  function OnHelp(v: ChatView): Reaction
  {
    Reaction(Cleared, HelpShown)
  }

  /** `/setkey`: the other five cleared and the chat added to
      `awaitingApiKey`. */
  function OnSetKey(v: ChatView): Reaction
  {
    Reaction(Cleared.(awaitingKey := true), KeyRequested)
  }

  /** `/endchat`: only `activeChats` is touched. */
  function OnEndChat(v: ChatView): Reaction
  {
    if v.active then Reaction(v.(active := false), ChatEnded) else Reaction(v, NoActiveChat)
  }

  /** The description branch of the text handler for one kind: no key row
      replies and returns before the state is cleared; a failed lookup or any
      later exception is reported and the state kept; a completed analysis
      clears the kind's map. */
  function Describe(v: ChatView, kind: MediaKind, fileLink: string, text: string,
                    key: KeyRow, completes: bool): Reaction
  {
    match key
    case Absent => Reaction(v, NeedApiKey)
    case LookupFailed => Reaction(v, Reported)
    case Present =>
      if completes then Reaction(WithMedia(v, kind, None), Analysis(kind, fileLink, text))
      else Reaction(v, Reported)
  }

  predicate Describing(v: ChatView, kind: MediaKind)
  {
    Media(v, kind).Some? && Media(v, kind).value.AwaitingDescription?
  }

  /** A plain message: ignored when empty or a command; otherwise the first
      of these that applies: a pending key entry, an image, audio, pdf or
      video description, an active chat, else the menu. */
  function OnText(v: ChatView, text: string, key: KeyRow, completes: bool): Reaction
  {
    if text == [] || text[0] == '/' then Reaction(v, Ignored)
    else if v.awaitingKey then
      var apiKey := Trim(text);
      Reaction(v.(awaitingKey := false), if apiKey == [] then EmptyKey else CheckKey(apiKey))
    else Dispatch(v, text, key, completes)
  }

  /** The branches of the text handler after the key entry. */
  function Dispatch(v: ChatView, text: string, key: KeyRow, completes: bool): Reaction
  {
    if Describing(v, Image) then Describe(v, Image, v.image.value.fileLink, text, key, completes)
    else if Describing(v, Audio) then Describe(v, Audio, v.audio.value.fileLink, text, key, completes)
    else if Describing(v, Pdf) then Describe(v, Pdf, v.pdf.value.fileLink, text, key, completes)
    else if Describing(v, Video) then Describe(v, Video, v.video.value.fileLink, text, key, completes)
    else if v.active then Reaction(v, Converse(text))
    else Reaction(v, Menu)
  }

  function Handle(v: ChatView, ev: Event): Reaction
  {
    match ev
    case StartCmd(key) => OnStart(v, key)
    case StartChatCmd(key) => OnStartChat(v, key)
    case AnalyzeCmd(kind, key) => OnAnalyzeCommand(v, kind, key)
    case Upload(kind, link, mime) => OnUpload(v, kind, link, mime)
    case HelpCmd => OnHelp(v)
    case SetKeyCmd => OnSetKey(v)
    case EndChatCmd => OnEndChat(v)
    case Text(text, key, completes) => OnText(v, text, key, completes)
  }

  // ---------------------------------------------------------------------
  // Exclusivity: at most one of the six structures holds the chat.

  function Indicator(b: bool): nat
  {
    if b then 1 else 0
  }

  /** How many of the six structures hold the chat. */
  function Holders(v: ChatView): nat
  {
    Indicator(v.awaitingKey) + Indicator(v.active)
      + Indicator(v.image.Some?) + Indicator(v.audio.Some?)
      + Indicator(v.pdf.Some?) + Indicator(v.video.Some?)
  }

  predicate Exclusive(v: ChatView)
  {
    Holders(v) <= 1
  }

  /** Every command handler empties the five structures other than its own
      before it may fill its own; `/startchat`'s own is `activeChats`,
      `/setkey`'s is `awaitingApiKey`, an analysis command's its own map. */
  lemma CommandsClearOthers(v: ChatView, ev: Event)
    requires ev.StartCmd? || ev.StartChatCmd? || ev.AnalyzeCmd? || ev.HelpCmd? || ev.SetKeyCmd?
    ensures var w := Handle(v, ev).view;
      && (!ev.SetKeyCmd? ==> !w.awaitingKey)
      && (!ev.StartChatCmd? ==> !w.active)
      && forall k | !(ev.AnalyzeCmd? && ev.kind == k) :: Media(w, k) == None
    ensures ev.StartCmd? || ev.HelpCmd? ==> Handle(v, ev).view == Cleared
  {
  }

  /** An upload changes nothing but its own map, and that only from
      awaiting an upload to awaiting a description of the uploaded file; a
      document that is not a PDF changes nothing. */
  lemma UploadMovesOnlyOwnMap(v: ChatView, kind: MediaKind, link: string, mime: Option<string>)
    ensures var r := OnUpload(v, kind, link, mime);
      && (r.view == v || (Media(v, kind) == Some(AwaitingUpload)
                          && r.view == WithMedia(v, kind, Some(AwaitingDescription(link)))))
      && (kind == Pdf && mime != Some(PdfMime) ==> r.view == v)
      && (r.outcome.UploadReceived? <==> r.view != v)
  {
  }

  /** `/endchat` removes the chat from `activeChats` and nothing else. */
  lemma EndChatOnlyLeavesChat(v: ChatView)
    ensures OnEndChat(v).view == v.(active := false)
    ensures OnEndChat(v).outcome == (if v.active then ChatEnded else NoActiveChat)
  {
  }

  /** `/startchat` never clears `activeChats`, and the text handler never
      touches it. */
  lemma ActiveChatsNeverClearedByStartChatOrText(v: ChatView, key: KeyRow, text: string, completes: bool)
    ensures v.active ==> OnStartChat(v, key).view.active
    ensures OnText(v, text, key, completes).view.active == v.active
  {
  }

  /** An analysis command without a key row keeps its own map as it was,
      an awaited description included. */
  lemma AnalyzeWithoutKeyKeepsOwnMap(v: ChatView, kind: MediaKind)
    ensures Media(OnAnalyzeCommand(v, kind, Absent).view, kind) == Media(v, kind)
    ensures Media(OnAnalyzeCommand(v, kind, LookupFailed).view, kind) == Media(v, kind)
  {
  }

  /** The text handler only ever removes the chat from one structure: the
      key wait or the described kind's map; it never adds it anywhere. */
  lemma TextOnlyRemoves(v: ChatView, text: string, key: KeyRow, completes: bool)
    ensures var w := OnText(v, text, key, completes).view;
      && (w.awaitingKey ==> v.awaitingKey) && w.active == v.active
      && forall k | Media(w, k) != Media(v, k) :: Media(w, k) == None
  {
  }

  /** Every handler preserves exclusivity. */
  lemma HandlePreservesExclusive(v: ChatView, ev: Event)
    requires Exclusive(v)
    ensures Exclusive(Handle(v, ev).view)
  {
    match ev
    case AnalyzeCmd(kind, key) =>
      assert Holders(WithMedia(Cleared, kind, Media(v, kind))) <= 1 by { HoldersOfOneMedia(kind, Media(v, kind)); }
      HoldersOfOneMedia(kind, Some(AwaitingUpload));
    case Upload(kind, link, mime) =>
      if Media(v, kind) == Some(AwaitingUpload) {
        HoldersKeepOnRelabel(v, kind, Some(AwaitingDescription(link)));
      }
    case Text(text, key, completes) =>
      TextOnlyRemoves(v, text, key, completes);
      HoldersShrink(v, OnText(v, text, key, completes).view);
    case _ =>
  }

  lemma HoldersOfOneMedia(kind: MediaKind, s: Option<AnalysisState>)
    ensures Holders(WithMedia(Cleared, kind, s)) == Indicator(s.Some?)
  {
  }

  lemma HoldersKeepOnRelabel(v: ChatView, kind: MediaKind, s: Option<AnalysisState>)
    requires Media(v, kind).Some? && s.Some?
    ensures Holders(WithMedia(v, kind, s)) == Holders(v)
  {
  }

  /** A view that holds the chat in no more places than another has no more
      holders. */
  lemma HoldersShrink(v: ChatView, w: ChatView)
    requires w.awaitingKey ==> v.awaitingKey
    requires w.active ==> v.active
    requires forall k | Media(w, k).Some? :: Media(v, k).Some?
    ensures Holders(w) <= Holders(v)
  {
    assert Media(w, Image).Some? ==> Media(v, Image).Some?;
    assert Media(w, Audio).Some? ==> Media(v, Audio).Some?;
    assert Media(w, Pdf).Some? ==> Media(v, Pdf).Some?;
    assert Media(w, Video).Some? ==> Media(v, Video).Some?;
  }

  // ---------------------------------------------------------------------
  // The abstract mode of a chat, and the machine on modes the handlers
  // implement.

  datatype Mode =
    | Idle
    | EnteringKey
    | Chatting
    | AwaitingFile(kind: MediaKind)
    | AwaitingRequest(kind: MediaKind, fileLink: string)

  /** The one structure that holds the chat, read as a mode. */
  function ModeOf(v: ChatView): Mode
  {
    if v.awaitingKey then EnteringKey
    else if v.active then Chatting
    else if v.image.Some? then MediaMode(Image, v.image.value)
    else if v.audio.Some? then MediaMode(Audio, v.audio.value)
    else if v.pdf.Some? then MediaMode(Pdf, v.pdf.value)
    else if v.video.Some? then MediaMode(Video, v.video.value)
    else Idle
  }

  function MediaMode(kind: MediaKind, s: AnalysisState): Mode
  {
    match s
    case AwaitingUpload => AwaitingFile(kind)
    case AwaitingDescription(link) => AwaitingRequest(kind, link)
  }

  /** The view that holds the chat in exactly the mode's structure. */
  function ViewOfMode(m: Mode): (v: ChatView)
    ensures Exclusive(v)
  {
    match m
    case Idle => Cleared
    case EnteringKey => Cleared.(awaitingKey := true)
    case Chatting => Cleared.(active := true)
    case AwaitingFile(kind) =>
      HoldersOfOneMedia(kind, Some(AwaitingUpload));
      WithMedia(Cleared, kind, Some(AwaitingUpload))
    case AwaitingRequest(kind, link) =>
      HoldersOfOneMedia(kind, Some(AwaitingDescription(link)));
      WithMedia(Cleared, kind, Some(AwaitingDescription(link)))
  }

  /** Exclusive views and modes correspond one to one. */
  lemma ModeRoundTrip(v: ChatView, m: Mode)
    ensures ModeOf(ViewOfMode(m)) == m
    ensures Exclusive(v) ==> ViewOfMode(ModeOf(v)) == v
  {
  }

  /** The mode machine, written per mode: what each event does to a chat
      in each mode. */
  function NextMode(m: Mode, ev: Event): Mode
  {
    match ev
    case StartCmd(_) => Idle
    case HelpCmd => Idle
    case SetKeyCmd => EnteringKey
    case StartChatCmd(key) =>
      if m == Chatting || key == Present then Chatting else Idle
    case AnalyzeCmd(kind, key) =>
      if key == Present then AwaitingFile(kind)
      else if (m.AwaitingFile? || m.AwaitingRequest?) && m.kind == kind then m
      else Idle
    case Upload(kind, link, mime) =>
      if m == AwaitingFile(kind) && (kind != Pdf || mime == Some(PdfMime)) then AwaitingRequest(kind, link)
      else m
    case EndChatCmd => if m == Chatting then Idle else m
    case Text(text, key, completes) =>
      if text == [] || text[0] == '/' then m
      else if m == EnteringKey then Idle
      else if m.AwaitingRequest? && key == Present && completes then Idle
      else m
  }

  /** The handlers implement the mode machine: on an exclusive view, the
      mode after an event is NextMode of the mode before. */
  lemma HandleRefinesNextMode(v: ChatView, ev: Event)
    requires Exclusive(v)
    ensures ModeOf(Handle(v, ev).view) == NextMode(ModeOf(v), ev)
  {
    ModeRoundTrip(v, ModeOf(v));
    var m := ModeOf(v);
    assert v == ViewOfMode(m);
    match ev
    case Text(text, key, completes) =>
      if m.AwaitingRequest? {
        TextInRequestMode(m.kind, m.fileLink, text, key, completes);
      }
    case _ =>
  }

  lemma TextInRequestMode(kind: MediaKind, link: string, text: string, key: KeyRow, completes: bool)
    ensures ModeOf(OnText(ViewOfMode(AwaitingRequest(kind, link)), text, key, completes).view)
         == NextMode(AwaitingRequest(kind, link), Text(text, key, completes))
  {
  }

  /** A description request while the chat awaits one runs the analysis on
      the stored file link with the message as the request. */
  lemma DescriptionRunsAnalysis(kind: MediaKind, link: string, text: string)
    requires text != [] && text[0] != '/'
    ensures OnText(ViewOfMode(AwaitingRequest(kind, link)), text, Present, true)
         == Reaction(Cleared, Analysis(kind, link, text))
  {
  }

  /** A pending key entry consumes the next message whatever else is held:
      the trimmed text is checked, or refused when blank. */
  lemma KeyEntryComesFirst(v: ChatView, text: string, key: KeyRow, completes: bool)
    requires v.awaitingKey && text != [] && text[0] != '/'
    ensures var r := OnText(v, text, key, completes);
      && r.view == v.(awaitingKey := false)
      && r.outcome == (if Trim(text) == [] then EmptyKey else CheckKey(Trim(text)))
  {
  }

  // ---------------------------------------------------------------------
  // The six structures of attachEventHandlers, as tables over all chats.

  datatype Tables = Tables(awaitingApiKey: set<ChatId>, activeChats: set<ChatId>,
                           imageAnalysisState: map<ChatId, AnalysisState>,
                           audioAnalysisState: map<ChatId, AnalysisState>,
                           pdfAnalysisState: map<ChatId, AnalysisState>,
                           videoAnalysisState: map<ChatId, AnalysisState>)

  function Entry(m: map<ChatId, AnalysisState>, c: ChatId): Option<AnalysisState>
  {
    if c in m then Some(m[c]) else None
  }

  function SetEntry(m: map<ChatId, AnalysisState>, c: ChatId, s: Option<AnalysisState>): (r: map<ChatId, AnalysisState>)
    ensures Entry(r, c) == s
    ensures forall d | d != c :: Entry(r, d) == Entry(m, d)
  {
    if s.Some? then m[c := s.value] else m - {c}
  }

  function SetMember(s: set<ChatId>, c: ChatId, b: bool): (r: set<ChatId>)
    ensures (c in r) == b
    ensures forall d | d != c :: (d in r) == (d in s)
  {
    if b then s + {c} else s - {c}
  }

  /** The chat's entries in the tables. */
  function View(t: Tables, c: ChatId): ChatView
  {
    ChatView(c in t.awaitingApiKey, c in t.activeChats,
             Entry(t.imageAnalysisState, c), Entry(t.audioAnalysisState, c),
             Entry(t.pdfAnalysisState, c), Entry(t.videoAnalysisState, c))
  }

  /** The tables with the chat's entries replaced by `v`. */
  function Put(t: Tables, c: ChatId, v: ChatView): (r: Tables)
    ensures View(r, c) == v
    ensures forall d | d != c :: View(r, d) == View(t, d)
  {
    Tables(SetMember(t.awaitingApiKey, c, v.awaitingKey), SetMember(t.activeChats, c, v.active),
           SetEntry(t.imageAnalysisState, c, v.image), SetEntry(t.audioAnalysisState, c, v.audio),
           SetEntry(t.pdfAnalysisState, c, v.pdf), SetEntry(t.videoAnalysisState, c, v.video))
  }

  /** Writing back a chat's own entries changes nothing. */
  lemma PutOwnView(t: Tables, c: ChatId)
    ensures Put(t, c, View(t, c)) == t
  {
    SetMemberSame(t.awaitingApiKey, c);
    SetMemberSame(t.activeChats, c);
    SetEntrySame(t.imageAnalysisState, c);
    SetEntrySame(t.audioAnalysisState, c);
    SetEntrySame(t.pdfAnalysisState, c);
    SetEntrySame(t.videoAnalysisState, c);
  }

  lemma SetMemberSame(s: set<ChatId>, c: ChatId)
    ensures SetMember(s, c, c in s) == s
  {
  }

  lemma SetEntrySame(m: map<ChatId, AnalysisState>, c: ChatId)
    ensures SetEntry(m, c, Entry(m, c)) == m
  {
    if c in m {
      assert m[c := m[c]] == m;
    } else {
      assert m - {c} == m;
    }
  }

  /** A handler run for chat `c`: the chat's entries change as Handle says,
      no other chat's entries change. */
  function Apply(t: Tables, c: ChatId, ev: Event): Tables
  {
    Put(t, c, Handle(View(t, c), ev).view)
  }

  ghost predicate AllExclusive(t: Tables)
  {
    forall c :: Exclusive(View(t, c))
  }

  /** Exclusivity holds for every chat in the initial empty tables and after
      every handler run. */
  lemma ApplyPreservesAllExclusive(t: Tables, c: ChatId, ev: Event)
    requires AllExclusive(t)
    ensures AllExclusive(Apply(t, c, ev))
  {
    HandlePreservesExclusive(View(t, c), ev);
    var r := Apply(t, c, ev);
    forall d ensures Exclusive(View(r, d)) {
      if d != c {
        assert View(r, d) == View(t, d);
      }
    }
  }

  /** The tables after a run of handler calls, each for its own chat. */
  function ApplyAll(t: Tables, run: seq<(ChatId, Event)>): Tables
    decreases |run|
  {
    if run == [] then t else ApplyAll(Apply(t, run[0].0, run[0].1), run[1..])
  }

  /** Exclusivity survives any run of handler calls. */
  lemma {:induction false} AllRunsExclusive(t: Tables, run: seq<(ChatId, Event)>)
    requires AllExclusive(t)
    ensures AllExclusive(ApplyAll(t, run))
    decreases |run|
  {
    if run != [] {
      ApplyPreservesAllExclusive(t, run[0].0, run[0].1);
      AllRunsExclusive(Apply(t, run[0].0, run[0].1), run[1..]);
    }
  }

  lemma EmptyTablesExclusive()
    ensures AllExclusive(Tables({}, {}, map[], map[], map[], map[]))
  {
    forall d ensures Exclusive(View(Tables({}, {}, map[], map[], map[], map[]), d)) {
      assert View(Tables({}, {}, map[], map[], map[], map[]), d) == Cleared;
    }
  }

  /** The six structures of attachEventHandlers, updated in place by the
      handlers. `activeChats` is a Map to `true` in the source, a set here. */
  class ModeTables {
    var awaitingApiKey: set<ChatId>
    var activeChats: set<ChatId>
    var imageAnalysisState: map<ChatId, AnalysisState>
    var audioAnalysisState: map<ChatId, AnalysisState>
    var pdfAnalysisState: map<ChatId, AnalysisState>
    var videoAnalysisState: map<ChatId, AnalysisState>

    function Snapshot(): Tables
      reads this
    {
      Tables(awaitingApiKey, activeChats, imageAnalysisState, audioAnalysisState,
             pdfAnalysisState, videoAnalysisState)
    }

    constructor ()
      ensures Snapshot() == Tables({}, {}, map[], map[], map[], map[])
    {
      awaitingApiKey := {};
      activeChats := {};
      imageAnalysisState := map[];
      audioAnalysisState := map[];
      pdfAnalysisState := map[];
      videoAnalysisState := map[];
    }

    method DeleteMedia(kind: MediaKind, c: ChatId)
      modifies this
      ensures Snapshot() == Put(old(Snapshot()), c, WithMedia(View(old(Snapshot()), c), kind, None))
    {
      SetMemberSame(awaitingApiKey, c);
      SetMemberSame(activeChats, c);
      SetEntrySame(imageAnalysisState, c);
      SetEntrySame(audioAnalysisState, c);
      SetEntrySame(pdfAnalysisState, c);
      SetEntrySame(videoAnalysisState, c);
      match kind
      case Image => imageAnalysisState := imageAnalysisState - {c};
      case Audio => audioAnalysisState := audioAnalysisState - {c};
      case Pdf => pdfAnalysisState := pdfAnalysisState - {c};
      case Video => videoAnalysisState := videoAnalysisState - {c};
    }

    method SetMedia(kind: MediaKind, c: ChatId, s: AnalysisState)
      modifies this
      ensures Snapshot() == Put(old(Snapshot()), c, WithMedia(View(old(Snapshot()), c), kind, Some(s)))
    {
      SetMemberSame(awaitingApiKey, c);
      SetMemberSame(activeChats, c);
      SetEntrySame(imageAnalysisState, c);
      SetEntrySame(audioAnalysisState, c);
      SetEntrySame(pdfAnalysisState, c);
      SetEntrySame(videoAnalysisState, c);
      match kind
      case Image => imageAnalysisState := imageAnalysisState[c := s];
      case Audio => audioAnalysisState := audioAnalysisState[c := s];
      case Pdf => pdfAnalysisState := pdfAnalysisState[c := s];
      case Video => videoAnalysisState := videoAnalysisState[c := s];
    }

    function MediaTable(kind: MediaKind): map<ChatId, AnalysisState>
      reads this
    {
      match kind
      case Image => imageAnalysisState
      case Audio => audioAnalysisState
      case Pdf => pdfAnalysisState
      case Video => videoAnalysisState
    }

    /** The `/start` handler. */
    method Start(c: ChatId, key: KeyRow) returns (o: Outcome)
      modifies this
      ensures (Snapshot(), o) == (Apply(old(Snapshot()), c, StartCmd(key)), Handle(View(old(Snapshot()), c), StartCmd(key)).outcome)
    {
      awaitingApiKey := awaitingApiKey - {c};
      activeChats := activeChats - {c};
      imageAnalysisState := imageAnalysisState - {c};
      audioAnalysisState := audioAnalysisState - {c};
      videoAnalysisState := videoAnalysisState - {c};
      pdfAnalysisState := pdfAnalysisState - {c};
      o := match key
        case Present => Welcome(true)
        case Absent => Welcome(false)
        case LookupFailed => Reported;
    }

    /** The `/startchat` handler. */
    method StartChat(c: ChatId, key: KeyRow) returns (o: Outcome)
      modifies this
      ensures (Snapshot(), o) == (Apply(old(Snapshot()), c, StartChatCmd(key)), Handle(View(old(Snapshot()), c), StartChatCmd(key)).outcome)
    {
      awaitingApiKey := awaitingApiKey - {c};
      imageAnalysisState := imageAnalysisState - {c};
      audioAnalysisState := audioAnalysisState - {c};
      videoAnalysisState := videoAnalysisState - {c};
      pdfAnalysisState := pdfAnalysisState - {c};
      SetMemberSame(activeChats, c);
      if key == Absent {
        return NeedApiKey;
      }
      if key == LookupFailed {
        return Reported;
      }
      if c in activeChats {
        SetMemberSame(activeChats, c);
        return AlreadyActive;
      }
      activeChats := activeChats + {c};
      return ChatStarted;
    }

    /** The `/imageanalyze`, `/audioanalyze`, `/pdfanalyze` and
        `/videoanalyze` handlers. */
    method AnalyzeCommand(c: ChatId, kind: MediaKind, key: KeyRow) returns (o: Outcome)
      modifies this
      ensures (Snapshot(), o) == (Apply(old(Snapshot()), c, AnalyzeCmd(kind, key)), Handle(View(old(Snapshot()), c), AnalyzeCmd(kind, key)).outcome)
    {
      awaitingApiKey := awaitingApiKey - {c};
      activeChats := activeChats - {c};
      if kind != Image { imageAnalysisState := imageAnalysisState - {c}; }
      if kind != Audio { audioAnalysisState := audioAnalysisState - {c}; }
      if kind != Video { videoAnalysisState := videoAnalysisState - {c}; }
      if kind != Pdf { pdfAnalysisState := pdfAnalysisState - {c}; }
      SetEntrySame(MediaTable(kind), c);
      if key == Absent {
        return NeedApiKey;
      }
      if key == LookupFailed {
        return Reported;
      }
      match kind {
        case Image => imageAnalysisState := imageAnalysisState[c := AwaitingUpload];
        case Audio => audioAnalysisState := audioAnalysisState[c := AwaitingUpload];
        case Pdf => pdfAnalysisState := pdfAnalysisState[c := AwaitingUpload];
        case Video => videoAnalysisState := videoAnalysisState[c := AwaitingUpload];
      }
      return UploadRequested(kind);
    }

    /** The `photo`, `audio`, `document` and `video` handlers. */
    method Upload(c: ChatId, kind: MediaKind, fileLink: string, mimeType: Option<string>) returns (o: Outcome)
      modifies this
      ensures (Snapshot(), o) == (Apply(old(Snapshot()), c, Event.Upload(kind, fileLink, mimeType)), Handle(View(old(Snapshot()), c), Event.Upload(kind, fileLink, mimeType)).outcome)
    {
      var table := MediaTable(kind);
      if !(c in table && table[c] == AwaitingUpload) {
        PutOwnView(Snapshot(), c);
        return Ignored;
      }
      if kind == Pdf && mimeType != Some(PdfMime) {
        PutOwnView(Snapshot(), c);
        return NotAPdf;
      }
      SetMedia(kind, c, AwaitingDescription(fileLink));
      return UploadReceived(kind, fileLink);
    }

    /** The `/help` handler. */
    method Help(c: ChatId) returns (o: Outcome)
      modifies this
      ensures (Snapshot(), o) == (Apply(old(Snapshot()), c, HelpCmd), Handle(View(old(Snapshot()), c), HelpCmd).outcome)
    {
      awaitingApiKey := awaitingApiKey - {c};
      activeChats := activeChats - {c};
      imageAnalysisState := imageAnalysisState - {c};
      audioAnalysisState := audioAnalysisState - {c};
      videoAnalysisState := videoAnalysisState - {c};
      pdfAnalysisState := pdfAnalysisState - {c};
      return HelpShown;
    }

    /** The `/setkey` handler. */
    method SetKey(c: ChatId) returns (o: Outcome)
      modifies this
      ensures (Snapshot(), o) == (Apply(old(Snapshot()), c, SetKeyCmd), Handle(View(old(Snapshot()), c), SetKeyCmd).outcome)
    {
      activeChats := activeChats - {c};
      imageAnalysisState := imageAnalysisState - {c};
      audioAnalysisState := audioAnalysisState - {c};
      videoAnalysisState := videoAnalysisState - {c};
      pdfAnalysisState := pdfAnalysisState - {c};
      awaitingApiKey := awaitingApiKey + {c};
      return KeyRequested;
    }

    /** The `/endchat` handler. */
    method EndChat(c: ChatId) returns (o: Outcome)
      modifies this
      ensures (Snapshot(), o) == (Apply(old(Snapshot()), c, EndChatCmd), Handle(View(old(Snapshot()), c), EndChatCmd).outcome)
    {
      if c in activeChats {
        PutOwnView(Snapshot(), c);
        activeChats := activeChats - {c};
        return ChatEnded;
      }
      PutOwnView(Snapshot(), c);
      return NoActiveChat;
    }

    /** One description branch of the `message` handler: the key row is
        looked up, the analysis runs, and the kind's state is cleared only
        when it completed. */
    method DescriptionBranch(c: ChatId, kind: MediaKind, text: string, key: KeyRow, completes: bool)
      returns (o: Outcome)
      requires Describing(View(Snapshot(), c), kind)
      modifies this
      ensures var v := View(old(Snapshot()), c);
        var r := Describe(v, kind, Media(v, kind).value.fileLink, text, key, completes);
        (Snapshot(), o) == (Put(old(Snapshot()), c, r.view), r.outcome)
    {
      PutOwnView(Snapshot(), c);
      var fileLink := Media(View(Snapshot(), c), kind).value.fileLink;
      if key == Absent {
        return NeedApiKey;
      }
      if key == LookupFailed || !completes {
        return Reported;
      }
      DeleteMedia(kind, c);
      return Analysis(kind, fileLink, text);
    }

    /** The `message` handler: the description branches are tried in the
        order image, audio, pdf, video. */
    method Message(c: ChatId, text: string, key: KeyRow, completes: bool) returns (o: Outcome)
      modifies this
      ensures var r := OnText(View(old(Snapshot()), c), text, key, completes);
        (Snapshot(), o) == (Put(old(Snapshot()), c, r.view), r.outcome)
    {
      if text == [] || text[0] == '/' {
        PutOwnView(Snapshot(), c);
        return Ignored;
      }
      if c in awaitingApiKey {
        o := KeyEntry(c, text);
        return;
      }
      o := DescriptionOrChat(c, text, key, completes);
    }

    /** The key-entry branch of the `message` handler. */
    method KeyEntry(c: ChatId, text: string) returns (o: Outcome)
      requires c in awaitingApiKey
      modifies this
      ensures var v := View(old(Snapshot()), c);
        (Snapshot(), o) == (Put(old(Snapshot()), c, v.(awaitingKey := false)),
                            if Trim(text) == [] then EmptyKey else CheckKey(Trim(text)))
    {
      PutOwnView(Snapshot(), c);
      awaitingApiKey := awaitingApiKey - {c};
      var apiKey := Trim(text);
      if apiKey != [] {
        return CheckKey(apiKey);
      }
      return EmptyKey;
    }

    /** The rest of the `message` handler, once no key entry is pending. */
    method DescriptionOrChat(c: ChatId, text: string, key: KeyRow, completes: bool) returns (o: Outcome)
      modifies this
      ensures var r := Dispatch(View(old(Snapshot()), c), text, key, completes);
        (Snapshot(), o) == (Put(old(Snapshot()), c, r.view), r.outcome)
    {
      if Describing(View(Snapshot(), c), Image) {
        o := DescriptionBranch(c, Image, text, key, completes);
        return;
      }
      if Describing(View(Snapshot(), c), Audio) {
        o := DescriptionBranch(c, Audio, text, key, completes);
        return;
      }
      if Describing(View(Snapshot(), c), Pdf) {
        o := DescriptionBranch(c, Pdf, text, key, completes);
        return;
      }
      if Describing(View(Snapshot(), c), Video) {
        o := DescriptionBranch(c, Video, text, key, completes);
        return;
      }
      PutOwnView(Snapshot(), c);
      if c in activeChats {
        return Converse(text);
      }
      return Menu;
    }
  }
}
