/** The chat window: its clamped resizing and dragging, the send button's
    state, the conversation history and the context sent with a question.
    The page's elements are taken to be present; rendering, animation and
    the network call are not modelled, and the call's answer is an input. */
module ChatWindow {
  import opened Wrappers
  import opened Text

  /** `Math.max(lo, Math.min(hi, v))`. */
  function Clamp(lo: int, hi: int, v: int): int {
    if hi < v then (if lo > hi then lo else hi) else (if lo > v then lo else v)
  }

  /** The clamp never goes below `lo`; it stays at most `hi` when `lo <= hi`;
      a value inside the bounds is kept; and it never decreases with `v`. */
  lemma ClampFacts(lo: int, hi: int, v: int, w: int)
    ensures lo <= Clamp(lo, hi, v)
    ensures lo <= hi ==> Clamp(lo, hi, v) <= hi
    ensures lo <= v <= hi ==> Clamp(lo, hi, v) == v
    ensures v <= w ==> Clamp(lo, hi, v) <= Clamp(lo, hi, w)
  {
  }

  const MinWidth := 320
  const MaxWidth := 800
  const MinHeight := 400
  const MaxHeight := 800

  /** The size `handleResize` sets: the handle sits at the bottom-left
      corner, so moving left widens and moving down heightens. */
  function ResizedSize(startWidth: int, startHeight: int, startX: int, startY: int,
                       clientX: int, clientY: int): (int, int)
  {
    (Clamp(MinWidth, MaxWidth, startWidth + (startX - clientX)),
     Clamp(MinHeight, MaxHeight, startHeight + (clientY - startY)))
  }

  /** The width stays within 320..800 and the height within 400..800, and a
      size inside those bounds follows the cursor exactly. */
  lemma ResizeBounds(startWidth: int, startHeight: int, startX: int, startY: int, clientX: int, clientY: int)
    ensures var size := ResizedSize(startWidth, startHeight, startX, startY, clientX, clientY);
      var w := size.0; var h := size.1;
      && MinWidth <= w <= MaxWidth && MinHeight <= h <= MaxHeight
      && (MinWidth <= startWidth + startX - clientX <= MaxWidth ==> w == startWidth + startX - clientX)
      && (MinHeight <= startHeight + clientY - startY <= MaxHeight ==> h == startHeight + clientY - startY)
  {
    ClampFacts(MinWidth, MaxWidth, startWidth + (startX - clientX), 0);
    ClampFacts(MinHeight, MaxHeight, startHeight + (clientY - startY), 0);
  }

  /** The viewport and the container's size while dragging. */
  datatype Frame = Frame(viewportWidth: int, viewportHeight: int, containerWidth: int, containerHeight: int)

  /** The padding kept from the edges: 5 on a mobile device, else 10. */
  function Padding(isMobile: bool): int {
    if isMobile then 5 else 10
  }

  /** Whether the small-screen rule applies. */
  predicate SmallScreen(isMobile: bool, f: Frame) {
    isMobile && f.viewportWidth <= 768
  }

  /** The left and top edge `handleDrag` allows for a wanted `(x, y)`. */
  function Constrained(x: int, y: int, f: Frame, isMobile: bool): (int, int) {
    if SmallScreen(isMobile, f) then
      (Clamp(0, f.viewportWidth - f.containerWidth, x), Clamp(0, f.viewportHeight - f.containerHeight, y))
    else
      var p := Padding(isMobile);
      (Clamp(p, f.viewportWidth - f.containerWidth - p, x), Clamp(p, f.viewportHeight - f.containerHeight - p, y))
  }

  /** What `setChatPosition` stores: the distances from the right and the
      bottom edge. */
  function RightBottom(left: int, top: int, f: Frame): (int, int) {
    (f.viewportWidth - left - f.containerWidth, f.viewportHeight - top - f.containerHeight)
  }

  /** Off small screens, the window keeps the padding from the left and the
      top edge always, and from the right and the bottom edge whenever the
      viewport leaves room for it; on small screens the same with no padding. */
  lemma DragBounds(x: int, y: int, f: Frame, isMobile: bool)
    ensures var edges := Constrained(x, y, f, isMobile);
      var left := edges.0; var top := edges.1;
      var right := RightBottom(left, top, f).0; var bottom := RightBottom(left, top, f).1;
      var p := if SmallScreen(isMobile, f) then 0 else Padding(isMobile);
      && left >= p && top >= p
      && (f.viewportWidth - f.containerWidth - p >= p ==> right >= p)
      && (f.viewportHeight - f.containerHeight - p >= p ==> bottom >= p)
      && (p <= x <= f.viewportWidth - f.containerWidth - p ==> left == x)
      && (p <= y <= f.viewportHeight - f.containerHeight - p ==> top == y)
  {
    var p := if SmallScreen(isMobile, f) then 0 else Padding(isMobile);
    ClampFacts(p, f.viewportWidth - f.containerWidth - p, x, x);
    ClampFacts(p, f.viewportHeight - f.containerHeight - p, y, y);
  }

  /** What `handleInputChange` shows: the limit, the send button's state and
      the warning colour of the counter. */
  datatype InputView = InputView(length: nat, maxLength: int, sendDisabled: bool, warning: bool)

  /** `parseInt(maxlength, 10) || 2000`: None is the `NaN` of a missing or
      unreadable attribute; 0 also falls back to 2000. */
  function MaxLength(attribute: Option<int>): int {
    if attribute.None? || attribute.value == 0 then 2000 else attribute.value
  }

  function InputViewOf(input: string, attribute: Option<int>): InputView {
    var length := Utf16Length(input);
    var maxLength := MaxLength(attribute);
    InputView(length, maxLength, length == 0 || length > maxLength, (length as real) > (maxLength as real) * 0.9)
  }

  /** Sending is disabled exactly for an empty input or one over the limit;
      the warning shows above nine tenths of the limit. Lengths are UTF-16
      code units, as JavaScript counts them. */
  lemma InputViewFacts(input: string, attribute: Option<int>)
    ensures var v := InputViewOf(input, attribute);
      && v.length == Utf16Length(input)
      && (v.sendDisabled <==> input == [] || Utf16Length(input) > v.maxLength)
      && (v.warning <==> 10 * Utf16Length(input) > 9 * v.maxLength)
      && (attribute.None? ==> v.maxLength == 2000)
  {
  }

  /** One entry of the conversation history. Metadata is not modelled. */
  datatype Entry = Entry(id: string, role: string, content: string, timestamp: string)

  /** The id of the `k`-th message. */
  function MsgId(k: nat): string {
    "msg-" + NatToString(k)
  }

  /** The number in an id `msg-<digits>`, and 0 for any other id. */
  function IdNumber(id: string): nat {
    if |id| > 4 && id[..4] == "msg-" && forall i :: 4 <= i < |id| ==> IsDigit(id[i]) then
      var digits := id[4..];
      assert forall i :: 0 <= i < |digits| ==> IsDigit(digits[i]);
      DigitsValue(digits)
    else 0
  }

  /** The number of the `k`-th id is `k`. */
  lemma IdNumberOfMsgId(k: nat)
    ensures IdNumber(MsgId(k)) == k
  {
    var id := MsgId(k);
    assert id[..4] == "msg-" && id[4..] == NatToString(k);
    DigitsValueOfNatToString(k);
  }

  /** Different counters give different ids. */
  lemma MsgIdInjective(a: nat, b: nat)
    requires MsgId(a) == MsgId(b)
    ensures a == b
  {
    IdNumberOfMsgId(a);
    IdNumberOfMsgId(b);
  }

  /** The history after `addMessage` with the counter at `counter`. */
  function Appended(history: seq<Entry>, counter: nat, role: string, content: string, timestamp: string): seq<Entry> {
    history + [Entry(MsgId(counter + 1), role, content, timestamp)]
  }

  /** No entry carries an id numbered above the counter. */
  predicate IdsBelow(history: seq<Entry>, counter: nat) {
    forall i :: 0 <= i < |history| ==> IdNumber(history[i].id) <= counter
  }

  /** No two entries share an id. */
  predicate DistinctIds(history: seq<Entry>) {
    forall i, j :: 0 <= i < j < |history| ==> history[i].id != history[j].id
  }

  /** While the history keeps below the counter, the next id is new, the
      history stays below the raised counter, and distinct ids stay
      distinct. */
  lemma AppendedFresh(history: seq<Entry>, counter: nat, role: string, content: string, timestamp: string)
    requires IdsBelow(history, counter)
    ensures forall i :: 0 <= i < |history| ==> history[i].id != MsgId(counter + 1)
    ensures IdsBelow(Appended(history, counter, role, content, timestamp), counter + 1)
    ensures DistinctIds(history) ==> DistinctIds(Appended(history, counter, role, content, timestamp))
  {
    IdNumberOfMsgId(counter + 1);
    var h := Appended(history, counter, role, content, timestamp);
    assert forall i :: 0 <= i < |history| ==> h[i] == history[i];
  }

  /** What `localStorage` holds under `chat_history`: nothing, text that is
      not JSON, or a parsed history. */
  datatype Stored = Absent | Corrupt | Parsed(entries: seq<Entry>)

  /** The history and counter after loading. */
  datatype Loaded = Loaded(history: seq<Entry>, counter: nat)

  /** `loadConversationHistory` as written: the history is replaced, and the
      message counter keeps the value it had (0 after construction). */
  function LoadAsWritten(history: seq<Entry>, counter: nat, stored: Stored): (r: Loaded)
    ensures r.counter == counter
    ensures r.history == (if stored.Parsed? then stored.entries else if stored.Corrupt? then [] else history)
  {
    match stored
    case Absent => Loaded(history, counter)
    case Corrupt => Loaded([], counter)
    case Parsed(entries) => Loaded(entries, counter)
  }

  /** After a reload the next message repeats the id of the first stored
      one. */
  lemma ReloadRepeatsId()
    ensures var loaded := LoadAsWritten([], 0, Parsed([Entry(MsgId(1), "user", "hi", "t0")]));
      var h := Appended(loaded.history, loaded.counter, "assistant", "hello", "t1");
      |h| == 2 && h[0].id == h[1].id && !DistinctIds(h)
  {
  }

  /** The largest number among the ids. */
  function MaxIdNumber(entries: seq<Entry>): (m: nat)
    ensures IdsBelow(entries, m)
    ensures entries == [] ==> m == 0
    ensures entries != [] ==> exists i :: 0 <= i < |entries| && IdNumber(entries[i].id) == m
  {
    if entries == [] then 0
    else
      var rest := MaxIdNumber(entries[1..]);
      assert forall i :: 1 <= i < |entries| ==> entries[i] == entries[1..][i - 1];
      var first := IdNumber(entries[0].id);
      if first > rest then first else rest
  }

  /** `loadConversationHistory` with the counter moved past every stored id,
      so that new messages never repeat one. */
  function Load(history: seq<Entry>, counter: nat, stored: Stored): (r: Loaded)
    ensures r.history == LoadAsWritten(history, counter, stored).history
    ensures r.counter >= counter
  {
    match stored
    case Absent => Loaded(history, counter)
    case Corrupt => Loaded([], counter)
    case Parsed(entries) =>
      var m := MaxIdNumber(entries);
      Loaded(entries, if m > counter then m else counter)
  }

  /** Loading keeps every id at or below the counter, whatever was stored;
      so no later id repeats a loaded one. */
  lemma LoadKeepsIdsBelow(history: seq<Entry>, counter: nat, stored: Stored)
    requires !stored.Parsed? ==> IdsBelow(history, counter)
    ensures IdsBelow(Load(history, counter, stored).history, Load(history, counter, stored).counter)
  {
  }

  /** Whatever a parsed history holds, no id issued after it is loaded is
      one of its ids. */
  lemma LoadedIdsFresh(counter: nat, entries: seq<Entry>, j: nat)
    requires j >= 1
    ensures forall i :: 0 <= i < |entries| ==> entries[i].id != MsgId(Load([], counter, Parsed(entries)).counter + j)
  {
    var c := Load([], counter, Parsed(entries)).counter;
    IdNumberOfMsgId(c + j);
  }

  /** `clearConversation` once it proceeds: the first entry is kept. */
  function Cleared(history: seq<Entry>): (r: seq<Entry>)
    ensures |r| <= 1 && |r| <= |history| && r == history[..|r|] && (history != [] ==> |r| == 1)
  {
    history[..if |history| < 1 then |history| else 1]
  }

  /** `findIndex(msg => msg.id === id)`. */
  function FindIndex(history: seq<Entry>, id: string): (r: Option<nat>)
    ensures r.Some? ==> FirstWithId(history, id, r.value)
    ensures r.None? ==> forall j :: 0 <= j < |history| ==> history[j].id != id
  {
    if history == [] then None
    else if history[0].id == id then Some(0)
    else
      var r := FindIndex(history[1..], id);
      if r.Some? then Some(r.value + 1) else None
  }

  /** `i` is the first index holding `id`. */
  predicate FirstWithId(history: seq<Entry>, id: string, i: nat) {
    i < |history| && history[i].id == id && forall j :: 0 <= j < i ==> history[j].id != id
  }

  /** The index `regenerateMessage` removes, if it goes ahead: the message
      must be found and follow a user message. */
  function RegenerateIndex(history: seq<Entry>, id: string): Option<nat> {
    var found := FindIndex(history, id);
    if found.None? || found.value == 0 || history[found.value - 1].role != "user" then None
    else found
  }

  /** Regeneration goes ahead exactly for the first entry with that id when
      a user message precedes it, and then removes that entry. */
  lemma RegenerateWhen(history: seq<Entry>, id: string, i: nat)
    ensures RegenerateIndex(history, id) == Some(i) <==>
      1 <= i && FirstWithId(history, id, i) && history[i - 1].role == "user"
  {
    var found := FindIndex(history, id);
    if FirstWithId(history, id, i) {
      assert found.Some?;
    }
  }

  /** `splice(index, 1)`. */
  function RemoveAt(history: seq<Entry>, index: nat): (r: seq<Entry>)
    requires index < |history|
    ensures |r| == |history| - 1
    ensures forall j :: 0 <= j < index ==> r[j] == history[j]
    ensures forall j :: index <= j < |r| ==> r[j] == history[j + 1]
  {
    history[..index] + history[index + 1..]
  }

  /** Removing an entry keeps the ids below the counter and distinct. */
  lemma RemoveAtKeepsIds(history: seq<Entry>, index: nat, counter: nat)
    requires index < |history|
    ensures IdsBelow(history, counter) ==> IdsBelow(RemoveAt(history, index), counter)
    ensures DistinctIds(history) ==> DistinctIds(RemoveAt(history, index))
  {
    var r := RemoveAt(history, index);
    if DistinctIds(history) {
      forall a, b | 0 <= a < b < |r| ensures r[a].id != r[b].id {
        var a' := if a < index then a else a + 1;
        var b' := if b < index then b else b + 1;
        assert r[a] == history[a'] && r[b] == history[b'];
      }
    }
  }

  datatype FileContext = FileContext(name: string, content: string)

  /** The analysis result the window is told about: the file name and the
      static and the AI-reported line count and complexity, each possibly
      missing. */
  datatype AnalysisData = AnalysisData(filename: Option<string>, staticLoc: Option<nat>, staticC1: Option<nat>,
                                       aiLoc: Option<nat>, aiC1: Option<nat>)

  /** The context object: a field is None when its key is absent. */
  datatype Context = Context(filename: Option<string>, fileContent: Option<string>, analysis: Option<AnalysisData>)

  /** `prepareContext`. */
  function PrepareContext(file: Option<FileContext>, analysis: Option<AnalysisData>): (r: Option<Context>)
    ensures r.None? <==> file.None? && analysis.None?
    ensures r.Some? ==> (r.value.filename.Some? <==> file.Some?) && r.value.analysis == analysis
    ensures r.Some? && file.Some? ==> r.value.filename == Some(file.value.name) && r.value.fileContent == Some(file.value.content)
  {
    if file.None? && analysis.None? then None
    else Some(Context(if file.Some? then Some(file.value.name) else None,
                      if file.Some? then Some(file.value.content) else None,
                      analysis))
  }

  /** `value || 'N/A'`: a missing or zero count reads as N/A. */
  function OrNotAvailable(value: Option<nat>): string {
    if value.None? || value.value == 0 then "N/A" else NatToString(value.value)
  }

  /** A count shows as its digits exactly when it is present and above zero. */
  lemma OrNotAvailableShows(value: Option<nat>)
    ensures OrNotAvailable(value) == "N/A" <==> value.None? || value.value == 0
    ensures value.Some? && value.value > 0 ==> DigitsValue(OrNotAvailable(value)) == value.value
  {
    if value.Some? && value.value > 0 {
      DigitsValueOfNatToString(value.value);
      var s := NatToString(value.value);
      assert s[0] != 'N';
    }
  }

  /** The system message `handleAnalysisCompleted` adds. */
  function AnalysisSummary(a: AnalysisData): string {
    "🔬 **Analysis completed** for " + (if a.filename.None? || a.filename.value == "" then "your file" else a.filename.value) + "\n\n"
    + "**Key metrics:**\n"
    + "• Lines of Code: " + OrNotAvailable(a.staticLoc) + "\n"
    + "• Cyclomatic Complexity: " + OrNotAvailable(a.staticC1) + "\n"
    + "• AI Assessment: " + OrNotAvailable(a.aiLoc) + " LOC, Complexity " + OrNotAvailable(a.aiC1) + "\n\n"
    + "I can now provide detailed insights about your code's complexity and structure!"
  }

  /** The system message `handleFileUploaded` adds. */
  function UploadNotice(name: string): string {
    UploadHeading + name + UploadBody
  }

  const UploadHeading := "📄 **File uploaded**: "
  const UploadBody := "\n\nI now have access to your C code and can provide contextual analysis. Feel free to ask questions about this specific file!"

  /** The status indicator. */
  datatype StatusView = StatusView(color: string, text: string)

  /** `updateStatus`: the four known statuses, anything else shown as ready. */
  function StatusOf(status: string): StatusView
  {
    if status == "processing" then StatusView("#ffa502", "Processing...")
    else if status == "error" then StatusView("#ff4757", "Error")
    else if status == "offline" then StatusView("#8892b0", "Offline")
    else StatusView("#39ff14", "Ready")
  }

  /** An unknown status looks exactly like `ready`, and the four known ones
      look different from each other. */
  lemma StatusFacts(status: string)
    ensures status !in {"processing", "error", "offline"} ==> StatusOf(status) == StatusOf("ready")
    ensures StatusOf(status).text == "Ready" <==> status !in {"processing", "error", "offline"}
  {
  }

  /** The resize state: the cursor and the size when the resize began, and
      the container's current size. */
  datatype ResizeState = ResizeState(isResizing: bool, startX: int, startY: int, startWidth: int, startHeight: int,
                                     width: int, height: int)

  /** The drag state: the cursor's offset inside the container, and the
      position kept as distances from the right and the bottom edge. */
  datatype DragState = DragState(isDragging: bool, offsetX: int, offsetY: int, right: int, bottom: int)

  /** The message input and what the window shows about it. */
  datatype Composer = Composer(input: string, view: InputView)

  /** The conversation: its history, the id counter, what is saved, whether
      an answer is awaited, the contexts and the status shown. */
  datatype Conversation = Conversation(history: seq<Entry>, messageIdCounter: nat, saved: Stored, isTyping: bool,
                                       fileContext: Option<FileContext>, analysisContext: Option<AnalysisData>,
                                       status: StatusView)

  class ChatWindowState {
    /** What `detectMobile` found when the window was built. */
    const isMobile: bool
    var resize: ResizeState
    var drag: DragState
    var composer: Composer
    var conversation: Conversation

    /** No id already in the history can be issued again. Every update
        keeps it; the constructor as written establishes it only for an
        empty store. */
    predicate Valid()
      reads this
    {
      IdsBelow(conversation.history, conversation.messageIdCounter)
    }

    /** `new ChatWindow()` as written: the defaults, the status set to
        ready, and the stored history loaded with the message counter left
        at 0, so that ids are fresh only when nothing was stored. */
    constructor AsWritten(stored: Stored, isMobile: bool)
      ensures this.isMobile == isMobile
      ensures resize == ResizeState(false, 0, 0, 400, 600, 400, 600)
      ensures drag == DragState(false, 0, 0, 20, 20)
      ensures composer == Composer("", InputViewOf("", None))
      ensures conversation == Conversation(LoadAsWritten([], 0, stored).history, 0, stored, false,
                                           None, None, StatusOf("ready"))
      ensures !stored.Parsed? ==> Valid()
    {
      this.isMobile := isMobile;
      resize := ResizeState(false, 0, 0, 400, 600, 400, 600);
      drag := DragState(false, 0, 0, 20, 20);
      composer := Composer("", InputViewOf("", None));
      var loaded := LoadAsWritten([], 0, stored);
      conversation := Conversation(loaded.history, loaded.counter, stored, false, None, None, StatusOf("ready"));
    }

    /** `new ChatWindow()` with the corrected loading: the defaults, the
        status set to ready, and the stored history loaded with the counter
        moved past every stored id. */
    constructor(stored: Stored, isMobile: bool)
      ensures this.isMobile == isMobile
      ensures resize == ResizeState(false, 0, 0, 400, 600, 400, 600)
      ensures drag == DragState(false, 0, 0, 20, 20)
      ensures composer == Composer("", InputViewOf("", None))
      ensures conversation == Conversation(Load([], 0, stored).history, Load([], 0, stored).counter, stored, false,
                                           None, None, StatusOf("ready"))
      ensures Valid()
    {
      this.isMobile := isMobile;
      resize := ResizeState(false, 0, 0, 400, 600, 400, 600);
      drag := DragState(false, 0, 0, 20, 20);
      composer := Composer("", InputViewOf("", None));
      var loaded := Load([], 0, stored);
      LoadKeepsIdsBelow([], 0, stored);
      conversation := Conversation(loaded.history, loaded.counter, stored, false, None, None, StatusOf("ready"));
    }

    /** `startResize`, with the container's computed size. */
    method StartResize(clientX: int, clientY: int, computedWidth: int, computedHeight: int)
      modifies this
      ensures resize == old(resize).(isResizing := true, startX := clientX, startY := clientY,
                                     startWidth := computedWidth, startHeight := computedHeight)
      ensures drag == old(drag) && composer == old(composer) && conversation == old(conversation)
    {
      resize := resize.(isResizing := true, startX := clientX, startY := clientY,
                        startWidth := computedWidth, startHeight := computedHeight);
    }

    /** `handleResize`: nothing unless a resize is in progress. */
    method HandleResize(clientX: int, clientY: int)
      modifies this
      ensures !old(resize.isResizing) ==> resize == old(resize)
      ensures old(resize.isResizing) ==>
        var r := old(resize);
        var size := ResizedSize(r.startWidth, r.startHeight, r.startX, r.startY, clientX, clientY);
        resize == r.(width := size.0, height := size.1)
      ensures drag == old(drag) && composer == old(composer) && conversation == old(conversation)
    {
      if !resize.isResizing {
        return;
      }
      var deltaX := resize.startX - clientX;
      var deltaY := clientY - resize.startY;
      var newWidth := Clamp(MinWidth, MaxWidth, resize.startWidth + deltaX);
      var newHeight := Clamp(MinHeight, MaxHeight, resize.startHeight + deltaY);
      resize := resize.(width := newWidth, height := newHeight);
    }

    method StopResize()
      modifies this
      ensures resize == old(resize).(isResizing := false)
      ensures drag == old(drag) && composer == old(composer) && conversation == old(conversation)
    {
      resize := resize.(isResizing := false);
    }

    /** `startDrag`, with the container's left and top edge; a press on a
        control button does not start a drag. */
    method StartDrag(clientX: int, clientY: int, rectLeft: int, rectTop: int, onControlButton: bool)
      modifies this
      ensures onControlButton ==> drag == old(drag)
      ensures !onControlButton ==>
        drag == old(drag).(isDragging := true, offsetX := clientX - rectLeft, offsetY := clientY - rectTop)
      ensures resize == old(resize) && composer == old(composer) && conversation == old(conversation)
    {
      if onControlButton {
        return;
      }
      drag := drag.(isDragging := true, offsetX := clientX - rectLeft, offsetY := clientY - rectTop);
    }

    /** `handleDrag` followed by `setChatPosition`. */
    method HandleDrag(clientX: int, clientY: int, f: Frame)
      modifies this
      ensures !old(drag.isDragging) ==> drag == old(drag)
      ensures old(drag.isDragging) ==>
        var edges := Constrained(clientX - old(drag.offsetX), clientY - old(drag.offsetY), f, isMobile);
        var distances := RightBottom(edges.0, edges.1, f);
        drag == old(drag).(right := distances.0, bottom := distances.1)
      ensures resize == old(resize) && composer == old(composer) && conversation == old(conversation)
    {
      if !drag.isDragging {
        return;
      }
      var x := clientX - drag.offsetX;
      var y := clientY - drag.offsetY;
      var padding := if isMobile then 5 else 10;
      var constrainedX, constrainedY;
      if isMobile && f.viewportWidth <= 768 {
        constrainedX := Clamp(0, f.viewportWidth - f.containerWidth, x);
        constrainedY := Clamp(0, f.viewportHeight - f.containerHeight, y);
      } else {
        constrainedX := Clamp(padding, f.viewportWidth - f.containerWidth - padding, x);
        constrainedY := Clamp(padding, f.viewportHeight - f.containerHeight - padding, y);
      }
      drag := drag.(right := f.viewportWidth - constrainedX - f.containerWidth,
                    bottom := f.viewportHeight - constrainedY - f.containerHeight);
    }

    method StopDrag()
      modifies this
      ensures drag == old(drag).(isDragging := false)
      ensures resize == old(resize) && composer == old(composer) && conversation == old(conversation)
    {
      drag := drag.(isDragging := false);
    }

    /** Typing into the input: the text is replaced. */
    method SetInput(text: string)
      modifies this
      ensures composer == old(composer).(input := text)
      ensures resize == old(resize) && drag == old(drag) && conversation == old(conversation)
    {
      composer := composer.(input := text);
    }

    /** `handleInputChange` for the input's text and its `maxlength`. */
    method HandleInputChange(attribute: Option<int>)
      modifies this
      ensures composer == old(composer).(view := InputViewOf(old(composer.input), attribute))
      ensures resize == old(resize) && drag == old(drag) && conversation == old(conversation)
    {
      var length := Utf16Length(composer.input);
      var maxLength := if attribute.None? || attribute.value == 0 then 2000 else attribute.value;
      var isEmpty := length == 0;
      var isOverLimit := length > maxLength;
      composer := composer.(view := InputView(length, maxLength, isEmpty || isOverLimit,
                                              (length as real) > (maxLength as real) * 0.9));
    }

    /** `addMessage`: the next id, one entry appended, the history saved.
        The new id is not one already in the history. */
    method AddMessage(role: string, content: string, timestamp: string)
      modifies this
      ensures var h := Appended(old(conversation.history), old(conversation.messageIdCounter), role, content, timestamp);
        conversation == old(conversation).(history := h, messageIdCounter := old(conversation.messageIdCounter) + 1,
                                           saved := Parsed(h))
      ensures resize == old(resize) && drag == old(drag) && composer == old(composer)
      ensures old(Valid()) ==> Valid()
      ensures old(Valid()) ==> forall i :: 0 <= i < |old(conversation.history)| ==>
        old(conversation.history)[i].id != MsgId(conversation.messageIdCounter)
    {
      if Valid() {
        AppendedFresh(conversation.history, conversation.messageIdCounter, role, content, timestamp);
      }
      var counter := conversation.messageIdCounter + 1;
      var messageId := MsgId(counter);
      var history := conversation.history + [Entry(messageId, role, content, timestamp)];
      conversation := conversation.(history := history, messageIdCounter := counter, saved := Parsed(history));
    }

    /** `clearConversation`; `confirmed` is the user's answer, asked only
        when more than one entry exists. */
    method ClearConversation(confirmed: bool)
      modifies this
      ensures |old(conversation.history)| > 1 && !confirmed ==> conversation == old(conversation)
      ensures !(|old(conversation.history)| > 1 && !confirmed) ==>
        var h := Cleared(old(conversation.history));
        conversation == old(conversation).(history := h, saved := Parsed(h))
      ensures resize == old(resize) && drag == old(drag) && composer == old(composer)
      ensures old(Valid()) ==> Valid()
    {
      if |conversation.history| > 1 && !confirmed {
        return;
      }
      var history := conversation.history[..if |conversation.history| < 1 then |conversation.history| else 1];
      conversation := conversation.(history := history, saved := Parsed(history));
    }

    /** `regenerateMessage` up to the request: the answer is removed, the
        window is marked typing and processing, and the user message to send
        again is returned with the context. Nothing changes when the
        regeneration does not go ahead. */
    method RegenerateMessage(messageId: string) returns (request: Option<(string, Option<Context>)>)
      modifies this
      ensures RegenerateIndex(old(conversation.history), messageId).None? ==>
        conversation == old(conversation) && request.None?
      ensures RegenerateIndex(old(conversation.history), messageId).Some? ==>
        var i := RegenerateIndex(old(conversation.history), messageId).value;
        var c := old(conversation);
        && conversation == c.(history := RemoveAt(c.history, i), isTyping := true, status := StatusOf("processing"))
        && request == Some((c.history[i - 1].content, PrepareContext(c.fileContext, c.analysisContext)))
      ensures resize == old(resize) && drag == old(drag) && composer == old(composer)
      ensures old(Valid()) ==> Valid()
    {
      var history := conversation.history;
      var messageIndex := FindIndex(history, messageId);
      if messageIndex.None? {
        return None;
      }
      var index := messageIndex.value;
      if index == 0 {
        return None;
      }
      var userMessage := history[index - 1];
      if userMessage.role != "user" {
        return None;
      }
      RemoveAtKeepsIds(history, index, conversation.messageIdCounter);
      conversation := conversation.(history := history[..index] + history[index + 1..], isTyping := true,
                                    status := StatusOf("processing"));
      request := Some((userMessage.content, PrepareContext(conversation.fileContext, conversation.analysisContext)));
    }

    /** `handleSendMessage` up to the request: nothing for a blank input or
        while an answer is awaited; otherwise the trimmed text is added as a
        user message, the input emptied, and the window marked typing and
        processing. */
    method HandleSendMessage(timestamp: string, attribute: Option<int>) returns (request: Option<(string, Option<Context>)>)
      modifies this
      ensures Trim(old(composer.input)) == "" || old(conversation.isTyping) ==>
        conversation == old(conversation) && composer == old(composer) && request.None?
      ensures !(Trim(old(composer.input)) == "" || old(conversation.isTyping)) ==>
        var c := old(conversation);
        var message := Trim(old(composer.input));
        var h := Appended(c.history, c.messageIdCounter, "user", message, timestamp);
        && conversation == c.(history := h, messageIdCounter := c.messageIdCounter + 1, saved := Parsed(h),
                              isTyping := true, status := StatusOf("processing"))
        && composer == Composer("", InputViewOf("", attribute))
        && request == Some((message, PrepareContext(c.fileContext, c.analysisContext)))
      ensures resize == old(resize) && drag == old(drag)
      ensures old(Valid()) ==> Valid()
    {
      var message := Trim(composer.input);
      if message == "" || conversation.isTyping {
        return None;
      }
      AddMessage("user", message, timestamp);
      composer := composer.(input := "");
      HandleInputChange(attribute);
      conversation := conversation.(isTyping := true, status := StatusOf("processing"));
      request := Some((message, PrepareContext(conversation.fileContext, conversation.analysisContext)));
    }

    /** The end of `handleSendMessage` and `regenerateMessage`: an answer is
        added as an assistant message and the status becomes ready; a failure
        adds `errorLead` and the error's text as an error message and the
        status becomes error; either way the window stops typing. */
    method CompleteRequest(response: Result<string, string>, errorLead: string, timestamp: string)
      modifies this
      ensures var c := old(conversation);
        var h := if response.Ok? then Appended(c.history, c.messageIdCounter, "assistant", response.value, timestamp)
                 else Appended(c.history, c.messageIdCounter, "error", errorLead + response.error, timestamp);
        conversation == c.(history := h, messageIdCounter := c.messageIdCounter + 1, saved := Parsed(h),
                           isTyping := false, status := StatusOf(if response.Ok? then "ready" else "error"))
      ensures resize == old(resize) && drag == old(drag) && composer == old(composer)
      ensures old(Valid()) ==> Valid()
    {
      if response.Ok? {
        AddMessage("assistant", response.value, timestamp);
        UpdateStatus("ready");
      } else {
        AddMessage("error", errorLead + response.error, timestamp);
        UpdateStatus("error");
      }
      conversation := conversation.(isTyping := false);
    }

    /** `updateStatus`. */
    method UpdateStatus(s: string)
      modifies this
      ensures conversation == old(conversation).(status := StatusOf(s))
      ensures resize == old(resize) && drag == old(drag) && composer == old(composer)
    {
      conversation := conversation.(status := StatusOf(s));
    }

    /** `handleFileUploaded`: the file becomes the context, then its system
        message is added. */
    method HandleFileUploaded(name: string, content: string, timestamp: string)
      modifies this
      ensures var h := Appended(old(conversation.history), old(conversation.messageIdCounter), "system",
                                UploadNotice(name), timestamp);
        conversation == old(conversation).(fileContext := Some(FileContext(name, content)), history := h,
                                           messageIdCounter := old(conversation.messageIdCounter) + 1, saved := Parsed(h))
      ensures resize == old(resize) && drag == old(drag) && composer == old(composer)
      ensures old(Valid()) ==> Valid()
    {
      conversation := conversation.(fileContext := Some(FileContext(name, content)));
      AddMessage("system", UploadNotice(name), timestamp);
    }

    /** `handleAnalysisCompleted`: the analysis becomes the context, then
        its summary is added. */
    method HandleAnalysisCompleted(analysis: AnalysisData, timestamp: string)
      modifies this
      ensures var h := Appended(old(conversation.history), old(conversation.messageIdCounter), "system",
                                AnalysisSummary(analysis), timestamp);
        conversation == old(conversation).(analysisContext := Some(analysis), history := h,
                                           messageIdCounter := old(conversation.messageIdCounter) + 1, saved := Parsed(h))
      ensures resize == old(resize) && drag == old(drag) && composer == old(composer)
      ensures old(Valid()) ==> Valid()
    {
      conversation := conversation.(analysisContext := Some(analysis));
      AddMessage("system", AnalysisSummary(analysis), timestamp);
    }
  }
}
