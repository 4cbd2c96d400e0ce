/**
 * The decoder that turns the XML inventory responses into device records.
 *
 * Foundation's XMLParser tokenizes the body and calls back its delegate once
 * per start tag, run of character data and end tag; here that output is a
 * sequence of `Event`s. The delegate, `JamfXMLParser`, keeps the name of the
 * last opened element, thirteen scratch strings and the three outputs, and
 * updates them in place. `Step` and `Run` state the same behaviour as a fold
 * over the events; the class's methods are proved against them.
 */
module XmlParser {
  import opened JamfTypes
  import opened Text
  import opened Folding

  /** One callback of the tokenizer. */
  datatype Event =
    | StartElement(name: string)
    | Characters(text: string)
    | EndElement(name: string)

  /** The thirteen elements whose text the decoder keeps. */
  datatype Field =
    | Id | Name | Model | Username | OsVersion | OsBuild | PhoneNumber
    | ReportDateEpoch | Managed | Supervised | ModelIdentifier | ModelNumber | SerialNumber

  /** The element name that feeds a scratch field. */
  function TagOf(f: Field): string
  {
    match f
    case Id => "id"
    case Name => "name"
    case Model => "model"
    case Username => "username"
    case OsVersion => "os_version"
    case OsBuild => "os_build"
    case PhoneNumber => "phone_number"
    case ReportDateEpoch => "report_date_epoch"
    case Managed => "managed"
    case Supervised => "supervised"
    case ModelIdentifier => "model_identifier"
    case ModelNumber => "model_number"
    case SerialNumber => "serial_number"
  }

  /** The thirteen scratch strings, as one value. */
  datatype Scratch = Scratch(
    id: string,
    name: string,
    model: string,
    username: string,
    osVersion: string,
    osBuild: string,
    phoneNumber: string,
    reportDateEpoch: string,
    managed: string,
    supervised: string,
    modelIdentifier: string,
    modelNumber: string,
    serialNumber: string)
  {
    function Get(f: Field): string
    {
      match f
      case Id => id
      case Name => name
      case Model => model
      case Username => username
      case OsVersion => osVersion
      case OsBuild => osBuild
      case PhoneNumber => phoneNumber
      case ReportDateEpoch => reportDateEpoch
      case Managed => managed
      case Supervised => supervised
      case ModelIdentifier => modelIdentifier
      case ModelNumber => modelNumber
      case SerialNumber => serialNumber
    }

    /** This record with field `f` replaced by `v`. */
    function Set(f: Field, v: string): Scratch
    {
      match f
      case Id => this.(id := v)
      case Name => this.(name := v)
      case Model => this.(model := v)
      case Username => this.(username := v)
      case OsVersion => this.(osVersion := v)
      case OsBuild => this.(osBuild := v)
      case PhoneNumber => this.(phoneNumber := v)
      case ReportDateEpoch => this.(reportDateEpoch := v)
      case Managed => this.(managed := v)
      case Supervised => this.(supervised := v)
      case ModelIdentifier => this.(modelIdentifier := v)
      case ModelNumber => this.(modelNumber := v)
      case SerialNumber => this.(serialNumber := v)
    }
  }

  const EmptyScratch := Scratch("", "", "", "", "", "", "", "", "", "", "", "", "")

  /** The computer record the decoder emits from the scratch fields. */
  function ComputerRecord(sc: Scratch): JamfDevice
  {
    JamfDevice(sc.id, sc.name, sc.model, sc.reportDateEpoch, sc.managed)
  }

  /** The mobile-device summary the decoder emits from the scratch fields. */
  function MobileDeviceRecord(sc: Scratch): JamfMobileDevice
  {
    JamfMobileDevice(sc.id, sc.name, sc.model, sc.username, sc.managed, sc.supervised)
  }

  /** The mobile-device detail the decoder emits from the scratch fields. */
  function DetailsRecord(sc: Scratch): JamfMobileDeviceDetails
  {
    JamfMobileDeviceDetails(sc.id, sc.name, sc.model, sc.username, sc.osVersion, sc.osBuild,
                            sc.phoneNumber, sc.modelIdentifier, sc.modelNumber, sc.serialNumber)
  }

  /** Everything the delegate holds, as one value. */
  datatype ParserState = ParserState(
    devices: seq<JamfDevice>,
    mobildevices: seq<JamfMobileDevice>,
    mobildevicesdetails: Option<JamfMobileDeviceDetails>,
    currentElement: string,
    currentDeviceType: string,
    scratch: Scratch)

  /** The state of a freshly created delegate. */
  const Initial := ParserState([], [], None, "", "", EmptyScratch)

  /** A start tag: remember it; a `computer` or `mobile_device` tag also clears the scratch fields. */
  function OnStart(s: ParserState, name: string): ParserState
  {
    if name == "computer" || name == "mobile_device" then
      s.(currentElement := name, currentDeviceType := name, scratch := EmptyScratch)
    else
      s.(currentElement := name)
  }

  /** Character data: trimmed, and when something is left, stored in the field of the current element. */
  function OnCharacters(s: ParserState, text: string): ParserState
  {
    var trimmed := Trim(text);
    if trimmed == [] then s else s.(scratch := Stored(s.scratch, s.currentElement, trimmed))
  }

  /**
   * `text` stored into the scratch field fed by `element`; an element name
   * outside the thirteen changes nothing.
   */
  function Stored(sc: Scratch, element: string, text: string): Scratch
  {
    match element
    case "id" => sc.(id := text)
    case "name" => sc.(name := text)
    case "model" => sc.(model := text)
    case "username" => sc.(username := text)
    case "os_version" => sc.(osVersion := text)
    case "os_build" => sc.(osBuild := text)
    case "phone_number" => sc.(phoneNumber := text)
    case "report_date_epoch" => sc.(reportDateEpoch := text)
    case "managed" => sc.(managed := text)
    case "supervised" => sc.(supervised := text)
    case "model_identifier" => sc.(modelIdentifier := text)
    case "model_number" => sc.(modelNumber := text)
    case "serial_number" => sc.(serialNumber := text)
    case _ => sc
  }

  /**
   * `Stored` overwrites exactly the field whose element name is `element`
   * (never appending to it) and leaves every other field as it was.
   */
  lemma StoredOverwritesOneField(sc: Scratch, element: string, text: string, g: Field)
    ensures Stored(sc, element, text).Get(g) == if TagOf(g) == element then text else sc.Get(g)
  {
    if TagOf(g) == element {
      StoredWritesOwnField(sc, g, text);
    } else {
      StoredKeepsOtherField(sc, element, text, g);
    }
  }

  lemma StoredWritesOwnField(sc: Scratch, f: Field, text: string)
    ensures Stored(sc, TagOf(f), text).Get(f) == text
  {
  }

  /** Storing under a field's own element name replaces that field. */
  lemma StoredIsSet(sc: Scratch, f: Field, text: string)
    ensures Stored(sc, TagOf(f), text) == sc.Set(f, text)
  {
  }

  lemma StoredKeepsOtherField(sc: Scratch, element: string, text: string, g: Field)
    requires TagOf(g) != element
    ensures Stored(sc, element, text).Get(g) == sc.Get(g)
  {
    match element {
      case "id" =>
      case "name" =>
      case "model" =>
      case "username" =>
      case "os_version" =>
      case "os_build" =>
      case "phone_number" =>
      case "report_date_epoch" =>
      case "managed" =>
      case "supervised" =>
      case "model_identifier" =>
      case "model_number" =>
      case "serial_number" =>
      case _ =>
    }
  }

  /** An end tag: `computer`, `mobile_device` and `general` each emit their record. */
  function OnEnd(s: ParserState, name: string): ParserState
  {
    if name == "computer" then
      s.(devices := s.devices + [ComputerRecord(s.scratch)], currentDeviceType := "")
    else if name == "mobile_device" then
      s.(mobildevices := s.mobildevices + [MobileDeviceRecord(s.scratch)], currentDeviceType := "")
    else if name == "general" then
      s.(mobildevicesdetails := Some(DetailsRecord(s.scratch)), currentDeviceType := "")
    else
      s
  }

  function Step(s: ParserState, e: Event): ParserState
  {
    match e
    case StartElement(name) => OnStart(s, name)
    case Characters(text) => OnCharacters(s, text)
    case EndElement(name) => OnEnd(s, name)
  }

  /** The state after the delegate has seen every event of `es`, in order. */
  function Run(s: ParserState, es: seq<Event>): ParserState
  {
    FoldLeft(Step, s, es)
  }

  /** What `parse(data:forType:)` hands back: one of the three outputs. */
  datatype ParseResult =
    | DeviceList(devices: seq<JamfDevice>)
    | MobileDeviceList(mobileDevices: seq<JamfMobileDevice>)
    | Details(details: Option<JamfMobileDeviceDetails>)

  function Select(s: ParserState, kind: JamfDeviceType): ParseResult
  {
    match kind
    case Computers => DeviceList(s.devices)
    case MobileDevices => MobileDeviceList(s.mobildevices)
    case MobileDeviceDetails => Details(s.mobildevicesdetails)
  }

  /**
   * Character data leaves everything but the scratch fields alone; blank text
   * changes nothing; other text overwrites exactly the field whose element
   * name is the current element, and nothing when no field has that name.
   */
  lemma CharactersOverwriteOneField(s: ParserState, text: string)
    ensures IsBlank(text) ==> OnCharacters(s, text) == s
    ensures OnCharacters(s, text) == s.(scratch := OnCharacters(s, text).scratch)
    ensures !IsBlank(text) ==>
      forall g: Field ::
        OnCharacters(s, text).scratch.Get(g) == (if TagOf(g) == s.currentElement then Trim(text) else s.scratch.Get(g))
  {
    TrimWhitespace(text);
    if !IsBlank(text) {
      forall g: Field
        ensures OnCharacters(s, text).scratch.Get(g)
          == (if TagOf(g) == s.currentElement then Trim(text) else s.scratch.Get(g))
      {
        StoredOverwritesOneField(s.scratch, s.currentElement, Trim(text), g);
      }
    }
  }

  /** Decoding a whole document with a fresh delegate. */
  function Decode(es: seq<Event>, kind: JamfDeviceType): ParseResult
  {
    Select(Run(Initial, es), kind)
  }

  /** What one event does to the outputs and to `currentElement`. */
  lemma StepOutputs(t: ParserState, e: Event)
    ensures Step(t, e).devices == t.devices + (if e == EndElement("computer") then [ComputerRecord(t.scratch)] else [])
    ensures Step(t, e).mobildevices
      == t.mobildevices + (if e == EndElement("mobile_device") then [MobileDeviceRecord(t.scratch)] else [])
    ensures Step(t, e).mobildevicesdetails
      == if e == EndElement("general") then Some(DetailsRecord(t.scratch)) else t.mobildevicesdetails
    ensures Step(t, e).currentElement == if e.StartElement? then e.name else t.currentElement
  {
  }

  /** Feeding two documents one after the other is feeding their concatenation. */
  lemma RunAppend(s: ParserState, es: seq<Event>, fs: seq<Event>)
    ensures Run(s, es + fs) == Run(Run(s, es), fs)
  {
    FoldAppend(Step, s, es, fs);
  }

  /** `devices` only grows, by one record per `computer` end tag. */
  lemma DevicesGrowAtComputerEnds(s: ParserState, es: seq<Event>)
    ensures |Run(s, es).devices| == |s.devices| + Count(es, EndElement("computer"))
    ensures |Run(s, es).devices| == |s.devices| + multiset(es)[EndElement("computer")]
    ensures Run(s, es).devices[..|s.devices|] == s.devices
  {
    StepDevices();
    CountIsMultiplicity(es, EndElement("computer"));
    FoldAppendsAtMarks(Step, (t: ParserState) => t.devices, (t: ParserState) => ComputerRecord(t.scratch),
                       EndElement("computer"), s, es);
  }

  /**
   * The `computer` end tag at position `i` contributes the entry after those
   * of the earlier `computer` end tags, built from the scratch fields as they
   * stood just before it: `devices` lists the computers in document order.
   */
  lemma ComputerEndEmitsRecord(s: ParserState, es: seq<Event>, i: nat)
    requires i < |es| && es[i] == EndElement("computer")
    ensures |s.devices| + Count(es[..i], EndElement("computer")) < |Run(s, es).devices|
    ensures Run(s, es).devices[|s.devices| + Count(es[..i], EndElement("computer"))]
              == ComputerRecord(Run(s, es[..i]).scratch)
  {
    StepDevices();
    FoldEntryAtMark(Step, (t: ParserState) => t.devices, (t: ParserState) => ComputerRecord(t.scratch),
                    EndElement("computer"), s, es, i);
  }

  lemma StepDevices()
    ensures forall t, e ::
      Step(t, e).devices == t.devices + (if e == EndElement("computer") then [ComputerRecord(t.scratch)] else [])
  {
    forall t, e
      ensures Step(t, e).devices == t.devices + (if e == EndElement("computer") then [ComputerRecord(t.scratch)] else [])
    {
      StepOutputs(t, e);
    }
  }

  /** `mobildevices` only grows, by one record per `mobile_device` end tag. */
  lemma MobileDevicesGrowAtMobileDeviceEnds(s: ParserState, es: seq<Event>)
    ensures |Run(s, es).mobildevices| == |s.mobildevices| + Count(es, EndElement("mobile_device"))
    ensures |Run(s, es).mobildevices| == |s.mobildevices| + multiset(es)[EndElement("mobile_device")]
    ensures Run(s, es).mobildevices[..|s.mobildevices|] == s.mobildevices
  {
    StepMobileDevices();
    CountIsMultiplicity(es, EndElement("mobile_device"));
    FoldAppendsAtMarks(Step, (t: ParserState) => t.mobildevices, (t: ParserState) => MobileDeviceRecord(t.scratch),
                       EndElement("mobile_device"), s, es);
  }

  /** The `mobile_device` end tag at position `i` contributes its record in document order. */
  lemma MobileDeviceEndEmitsRecord(s: ParserState, es: seq<Event>, i: nat)
    requires i < |es| && es[i] == EndElement("mobile_device")
    ensures |s.mobildevices| + Count(es[..i], EndElement("mobile_device")) < |Run(s, es).mobildevices|
    ensures Run(s, es).mobildevices[|s.mobildevices| + Count(es[..i], EndElement("mobile_device"))]
              == MobileDeviceRecord(Run(s, es[..i]).scratch)
  {
    StepMobileDevices();
    FoldEntryAtMark(Step, (t: ParserState) => t.mobildevices, (t: ParserState) => MobileDeviceRecord(t.scratch),
                    EndElement("mobile_device"), s, es, i);
  }

  lemma StepMobileDevices()
    ensures forall t, e ::
      Step(t, e).mobildevices == t.mobildevices + (if e == EndElement("mobile_device") then [MobileDeviceRecord(t.scratch)] else [])
  {
    forall t, e
      ensures Step(t, e).mobildevices
        == t.mobildevices + (if e == EndElement("mobile_device") then [MobileDeviceRecord(t.scratch)] else [])
    {
      StepOutputs(t, e);
    }
  }

  /** Without a `general` end tag the detail record stays what it was. */
  lemma DetailsWithoutGeneral(s: ParserState, es: seq<Event>)
    requires forall i | 0 <= i < |es| :: es[i] != EndElement("general")
    ensures Run(s, es).mobildevicesdetails == s.mobildevicesdetails
  {
    StepDetails();
    FoldUnmarkedKeeps(Step, (t: ParserState) => t.mobildevicesdetails,
                      (t: ParserState, e: Event) => Some(DetailsRecord(t.scratch)),
                      (e: Event) => e == EndElement("general"), s, es);
  }

  /** The detail record is the one built at the last `general` end tag: last wins. */
  lemma DetailsFromLastGeneral(s: ParserState, es: seq<Event>, i: nat)
    requires i < |es| && es[i] == EndElement("general")
    requires forall j | i < j < |es| :: es[j] != EndElement("general")
    ensures Run(s, es).mobildevicesdetails == Some(DetailsRecord(Run(s, es[..i]).scratch))
  {
    StepDetails();
    FoldLastMarkWins(Step, (t: ParserState) => t.mobildevicesdetails,
                     (t: ParserState, e: Event) => Some(DetailsRecord(t.scratch)),
                     (e: Event) => e == EndElement("general"), s, es, i);
  }

  lemma StepDetails()
    ensures forall t, e ::
      Step(t, e).mobildevicesdetails == if e == EndElement("general") then Some(DetailsRecord(t.scratch)) else t.mobildevicesdetails
  {
    forall t, e
      ensures Step(t, e).mobildevicesdetails
        == if e == EndElement("general") then Some(DetailsRecord(t.scratch)) else t.mobildevicesdetails
    {
      StepOutputs(t, e);
    }
  }

  /**
   * End tags never clear `currentElement`: after a run it names the last
   * element opened, so text that follows a closing tag still lands in that
   * element's field.
   */
  lemma CurrentElementIsLastOpened(s: ParserState, es: seq<Event>, i: nat)
    requires i < |es| && es[i].StartElement?
    requires forall j | i < j < |es| :: !es[j].StartElement?
    ensures Run(s, es).currentElement == es[i].name
  {
    forall t, e
      ensures Step(t, e).currentElement == if e.StartElement? then e.name else t.currentElement
    {
      StepOutputs(t, e);
    }
    FoldLastMarkWins(Step, (t: ParserState) => t.currentElement,
                     (t: ParserState, e: Event) => if e.StartElement? then e.name else t.currentElement,
                     (e: Event) => e.StartElement?, s, es, i);
  }

  /**
   * A start tag records its name; `computer` and `mobile_device` also set
   * every scratch field to the empty string, any other tag keeps them.
   */
  lemma StartElementResets(s: ParserState, name: string, g: Field)
    ensures OnStart(s, name).currentElement == name
    ensures OnStart(s, name).scratch.Get(g)
      == if name == "computer" || name == "mobile_device" then "" else s.scratch.Get(g)
    ensures OnStart(s, name) == s.(currentElement := name, currentDeviceType := OnStart(s, name).currentDeviceType,
                                   scratch := OnStart(s, name).scratch)
  {
  }

  // ---------------------------------------------------------------------------
  // Documents the decoder reads back: one `<computer>` element per record.

  /** `<tag>text</tag>`, as the tokenizer reports it. */
  function Element(tag: string, text: string): seq<Event>
  {
    [StartElement(tag), Characters(text), EndElement(tag)]
  }

  /** Text that trimming leaves as it is: empty, or without whitespace at either end. */
  predicate IsTrimmed(v: string)
  {
    v == [] || (!IsWhitespaceOrNewline(v[0]) && !IsWhitespaceOrNewline(v[|v| - 1]))
  }

  /** The five field elements of a `<computer>` element, in the order the server writes them. */
  function ComputerFields(d: JamfDevice): seq<Event>
  {
    Element("id", d.id) + Element("name", d.name) + Element("model", d.model)
    + Element("report_date_epoch", d.reportDateEpoch) + Element("managed", d.managed)
  }

  /** The `<computer>` element that carries the five fields of `d`. */
  function ComputerElement(d: JamfDevice): seq<Event>
  {
    [StartElement("computer")] + ComputerFields(d) + [EndElement("computer")]
  }

  /** One `<computer>` element per record, in order. */
  function ComputerElements(ds: seq<JamfDevice>): seq<Event>
    decreases |ds|
  {
    if ds == [] then [] else ComputerElements(ds[..|ds| - 1]) + ComputerElement(ds[|ds| - 1])
  }

  /** A computer inventory response: `<computers><size>…</size><computer>…</computer>…</computers>`. */
  function ComputerInventory(size: string, ds: seq<JamfDevice>): seq<Event>
  {
    [StartElement("computers")] + Element("size", size) + ComputerElements(ds) + [EndElement("computers")]
  }

  lemma RunSnoc(t: ParserState, es: seq<Event>, e: Event)
    ensures Run(t, es + [e]) == Step(Run(t, es), e)
  {
    assert (es + [e])[..|es|] == es;
  }

  lemma RunTriple(t: ParserState, a: Event, b: Event, c: Event)
    ensures Run(t, [a, b, c]) == Step(Step(Step(t, a), b), c)
  {
    RunSnoc(t, [], a);
    RunSnoc(t, [a], b);
    RunSnoc(t, [a, b], c);
    assert [] + [a] == [a] && [a] + [b] == [a, b] && [a, b] + [c] == [a, b, c];
  }

  /**
   * A whitelisted element whose text is already trimmed stores that text in
   * its field, provided the field was empty before (an empty text leaves it
   * so), and changes neither the other fields nor the outputs.
   */
  lemma FieldElementStores(t: ParserState, f: Field, v: string)
    requires IsTrimmed(v) && t.scratch.Get(f) == ""
    ensures var u := Run(t, Element(TagOf(f), v));
      && u.devices == t.devices && u.mobildevices == t.mobildevices
      && u.mobildevicesdetails == t.mobildevicesdetails
      && u.scratch == t.scratch.Set(f, v)
  {
    var tag := TagOf(f);
    RunTriple(t, StartElement(tag), Characters(v), EndElement(tag));
    assert tag != "computer" && tag != "mobile_device" && tag != "general";
    TrimWhitespace(v);
    if v == [] {
      assert t.scratch.Set(f, v) == t.scratch by {
        match f
        case Id =>
        case Name =>
        case Model =>
        case Username =>
        case OsVersion =>
        case OsBuild =>
        case PhoneNumber =>
        case ReportDateEpoch =>
        case Managed =>
        case Supervised =>
        case ModelIdentifier =>
        case ModelNumber =>
        case SerialNumber =>
      }
    } else {
      StoredIsSet(t.scratch, f, v);
    }
  }

  /** Trimmed field texts, read into an empty record, fill exactly the five computer fields. */
  lemma ComputerFieldsStore(t: ParserState, d: JamfDevice)
    requires t.scratch == EmptyScratch
    requires IsTrimmed(d.id) && IsTrimmed(d.name) && IsTrimmed(d.model)
    requires IsTrimmed(d.reportDateEpoch) && IsTrimmed(d.managed)
    ensures var u := Run(t, ComputerFields(d));
      && u.devices == t.devices && u.mobildevices == t.mobildevices
      && u.mobildevicesdetails == t.mobildevicesdetails
      && ComputerRecord(u.scratch) == d
  {
    var p1 := Element("id", d.id);
    var p2 := p1 + Element("name", d.name);
    var p3 := p2 + Element("model", d.model);
    var p4 := p3 + Element("report_date_epoch", d.reportDateEpoch);
    FieldElementStores(t, Id, d.id);
    var s1 := Run(t, p1);
    RunAppend(t, p1, Element("name", d.name));
    FieldElementStores(s1, Name, d.name);
    var s2 := Run(t, p2);
    RunAppend(t, p2, Element("model", d.model));
    FieldElementStores(s2, Model, d.model);
    var s3 := Run(t, p3);
    RunAppend(t, p3, Element("report_date_epoch", d.reportDateEpoch));
    FieldElementStores(s3, ReportDateEpoch, d.reportDateEpoch);
    var s4 := Run(t, p4);
    RunAppend(t, p4, Element("managed", d.managed));
    FieldElementStores(s4, Managed, d.managed);
  }

  /** A `<computer>` element with trimmed field texts appends exactly its record to `devices`. */
  lemma ComputerElementDecodes(t: ParserState, d: JamfDevice)
    requires IsTrimmed(d.id) && IsTrimmed(d.name) && IsTrimmed(d.model)
    requires IsTrimmed(d.reportDateEpoch) && IsTrimmed(d.managed)
    ensures Run(t, ComputerElement(d)).devices == t.devices + [d]
    ensures Run(t, ComputerElement(d)).mobildevices == t.mobildevices
    ensures Run(t, ComputerElement(d)).mobildevicesdetails == t.mobildevicesdetails
  {
    var p0 := [StartElement("computer")];
    var p5 := p0 + ComputerFields(d);
    RunSnoc(t, [], StartElement("computer"));
    assert [] + p0 == p0;
    var s0 := Run(t, p0);
    ComputerFieldsStore(s0, d);
    RunAppend(t, p0, ComputerFields(d));
    RunSnoc(t, p5, EndElement("computer"));
  }

  /** A run of `<computer>` elements appends their records, in order. */
  lemma {:induction false} ComputerElementsDecode(t: ParserState, ds: seq<JamfDevice>)
    requires forall d | d in ds ::
      IsTrimmed(d.id) && IsTrimmed(d.name) && IsTrimmed(d.model) && IsTrimmed(d.reportDateEpoch) && IsTrimmed(d.managed)
    ensures Run(t, ComputerElements(ds)).devices == t.devices + ds
    decreases |ds|
  {
    if ds != [] {
      var init, last := ds[..|ds| - 1], ds[|ds| - 1];
      ComputerElementsDecode(t, init);
      RunAppend(t, ComputerElements(init), ComputerElement(last));
      ComputerElementDecodes(Run(t, ComputerElements(init)), last);
      assert init + [last] == ds;
    }
  }

  /**
   * Decoding a computer inventory response lists exactly the computers it
   * carries, in document order, provided their field texts are already
   * trimmed: the decoder reads back what the server wrote.
   */
  lemma DecodeComputerInventory(size: string, ds: seq<JamfDevice>)
    requires forall d | d in ds ::
      IsTrimmed(d.id) && IsTrimmed(d.name) && IsTrimmed(d.model) && IsTrimmed(d.reportDateEpoch) && IsTrimmed(d.managed)
    ensures Decode(ComputerInventory(size, ds), Computers) == DeviceList(ds)
  {
    var h0 := [StartElement("computers")];
    var head := h0 + Element("size", size);
    RunSnoc(Initial, [], StartElement("computers"));
    assert [] + h0 == h0;
    OtherElementKeepsOutputs(Run(Initial, h0), "size", size);
    RunAppend(Initial, h0, Element("size", size));
    var body := head + ComputerElements(ds);
    RunAppend(Initial, head, ComputerElements(ds));
    ComputerElementsDecode(Run(Initial, head), ds);
    RunSnoc(Initial, body, EndElement("computers"));
  }

  /** An element other than `computer`, `mobile_device` and `general` leaves the three outputs alone. */
  lemma OtherElementKeepsOutputs(t: ParserState, tag: string, text: string)
    requires tag != "computer" && tag != "mobile_device" && tag != "general"
    ensures var u := Run(t, Element(tag, text));
      u.devices == t.devices && u.mobildevices == t.mobildevices && u.mobildevicesdetails == t.mobildevicesdetails
  {
    RunTriple(t, StartElement(tag), Characters(text), EndElement(tag));
  }

  // ---------------------------------------------------------------------------
  // The delegate itself, updating its fields in place.

  /**
   * The delegate. The source keeps the thirteen scratch strings as separate
   * properties (`currentId`, `currentName`, ...); here they are the components
   * of the one field `current`, so `current.id` is the source's `currentId`.
   */
  class JamfXMLParser {
    var devices: seq<JamfDevice>
    var mobildevices: seq<JamfMobileDevice>
    var mobildevicesdetails: Option<JamfMobileDeviceDetails>
    var currentElement: string
    var currentDeviceType: string
    var current: Scratch

    /** The whole delegate, as one value. */
    function State(): ParserState
      reads this
    {
      ParserState(devices, mobildevices, mobildevicesdetails, currentElement, currentDeviceType, current)
    }

    constructor ()
      ensures State() == Initial
      ensures devices == [] && mobildevices == [] && mobildevicesdetails == None
    {
      devices := [];
      mobildevices := [];
      mobildevicesdetails := None;
      currentElement := "";
      currentDeviceType := "";
      current := EmptyScratch;
    }

    /** `parser(_:didStartElement:...)`. */
    method DidStartElement(elementName: string)
      modifies this
      ensures State() == OnStart(old(State()), elementName)
      ensures currentElement == elementName
      ensures devices == old(devices) && mobildevices == old(mobildevices)
      ensures mobildevicesdetails == old(mobildevicesdetails)
      ensures elementName == "computer" || elementName == "mobile_device" ==>
        current == EmptyScratch && currentDeviceType == elementName
      ensures elementName != "computer" && elementName != "mobile_device" ==>
        current == old(current) && currentDeviceType == old(currentDeviceType)
    {
      currentElement := elementName;
      if elementName == "computer" || elementName == "mobile_device" {
        currentDeviceType := elementName;
        current := current.(
          id := "", name := "", model := "", username := "", osVersion := "", osBuild := "",
          phoneNumber := "", reportDateEpoch := "", managed := "", supervised := "",
          modelIdentifier := "", modelNumber := "", serialNumber := "");
      }
    }

    /** `parser(_:foundCharacters:)`: blank text is ignored, the rest overwrites one field. */
    method FoundCharacters(text: string)
      modifies this
      ensures State() == OnCharacters(old(State()), text)
      ensures IsBlank(text) ==> State() == old(State())
      ensures currentElement == old(currentElement) && currentDeviceType == old(currentDeviceType)
      ensures devices == old(devices) && mobildevices == old(mobildevices)
      ensures mobildevicesdetails == old(mobildevicesdetails)
    {
      var trimmedString := Trim(text);
      TrimWhitespace(text);
      if trimmedString == [] {
        return;
      }
      StoreText(trimmedString);
    }

    /** The `switch currentElement` of `parser(_:foundCharacters:)`. */
    method StoreText(trimmedString: string)
      modifies this`current
      ensures current == Stored(old(current), currentElement, trimmedString)
    {
      match currentElement {
        case "id" => current := current.(id := trimmedString);
        case "name" => current := current.(name := trimmedString);
        case "model" => current := current.(model := trimmedString);
        case "username" => current := current.(username := trimmedString);
        case "os_version" => current := current.(osVersion := trimmedString);
        case "os_build" => current := current.(osBuild := trimmedString);
        case "phone_number" => current := current.(phoneNumber := trimmedString);
        case "report_date_epoch" => current := current.(reportDateEpoch := trimmedString);
        case "managed" => current := current.(managed := trimmedString);
        case "supervised" => current := current.(supervised := trimmedString);
        case "model_identifier" => current := current.(modelIdentifier := trimmedString);
        case "model_number" => current := current.(modelNumber := trimmedString);
        case "serial_number" => current := current.(serialNumber := trimmedString);
        case _ =>
      }
    }

    /** `parser(_:didEndElement:...)`. */
    method DidEndElement(elementName: string)
      modifies this
      ensures State() == OnEnd(old(State()), elementName)
      ensures currentElement == old(currentElement) && current == old(current)
      ensures devices == old(devices) + (if elementName == "computer" then [ComputerRecord(current)] else [])
      ensures mobildevices == old(mobildevices)
        + (if elementName == "mobile_device" then [MobileDeviceRecord(current)] else [])
      ensures mobildevicesdetails ==
        if elementName == "general" then Some(DetailsRecord(current)) else old(mobildevicesdetails)
    {
      if elementName == "computer" {
        var device := JamfDevice(current.id, current.name, current.model, current.reportDateEpoch, current.managed);
        devices := devices + [device];
        currentDeviceType := "";
      }
      if elementName == "mobile_device" {
        var device := JamfMobileDevice(current.id, current.name, current.model, current.username,
                                       current.managed, current.supervised);
        mobildevices := mobildevices + [device];
        currentDeviceType := "";
      }
      if elementName == "general" {
        var device := JamfMobileDeviceDetails(current.id, current.name, current.model, current.username,
                                              current.osVersion, current.osBuild, current.phoneNumber,
                                              current.modelIdentifier, current.modelNumber, current.serialNumber);
        mobildevicesdetails := Some(device);
        currentDeviceType := "";
      }
    }

    /**
     * `parse(data:forType:)`: feeds every event of the document to the
     * callbacks, in order, then hands back the output `kind` selects.
     */
    method Parse(events: seq<Event>, kind: JamfDeviceType) returns (r: ParseResult)
      modifies this
      ensures State() == Run(old(State()), events)
      ensures r == Select(State(), kind)
    {
      var i := 0;
      while i < |events|
        invariant 0 <= i <= |events|
        invariant State() == Run(old(State()), events[..i])
      {
        assert events[..i + 1][..i] == events[..i];
        match events[i] {
          case StartElement(name) => DidStartElement(name);
          case Characters(text) => FoundCharacters(text);
          case EndElement(name) => DidEndElement(name);
        }
        i := i + 1;
      }
      assert events[..i] == events;
      match kind
      case Computers => r := DeviceList(devices);
      case MobileDevices => r := MobileDeviceList(mobildevices);
      case MobileDeviceDetails => r := Details(mobildevicesdetails);
    }
  }
}
