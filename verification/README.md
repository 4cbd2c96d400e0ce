# JamfApp core in Dafny

JamfApp is an iOS client for a Jamf Pro mobile-device-management server. It
logs in with HTTP Basic credentials and keeps the bearer token it gets back.
With that token it fetches the computer and mobile-device inventories (XML),
the details of one mobile device (as XML or as raw JSON), and it sends
management commands. This project models the two classes that do that work
and proves what they promise.

- `JamfXMLParser` is the delegate that Foundation's `XMLParser` drives. It
  keeps the name of the element last opened and thirteen scratch strings.
  It appends a `JamfDevice` at every `</computer>` and a `JamfMobileDevice`
  at every `</mobile_device>`. It replaces the `JamfMobileDeviceDetails` at
  every `</general>`.
  - In the model, the tokenizer's output is a sequence of `Event`s.
  - The class `XmlParser.JamfXMLParser` updates its fields in place, and
    `Parse` runs its callbacks in a loop.
  - The loop is proved against `Run`, a left fold of the pure step function
    `Step` over the events. Every property of the decoder is proved about
    `Run`.
- `JamfAPI` holds the credentials, the optional token and the published
  lists. In `JamfClient.JamfAPI`, each operation takes the outcome of its
  network call as a parameter (`Outcome`) and returns the request it would
  send. It updates the fields exactly as the completion handler does. The
  login header is built from concrete UTF-8 and base 64 (section 4 of
  RFC 4648) encoders, each proved to round-trip.

Modules:
- `JamfTypes`: the record types.
- `Text`: whitespace trimming and the name order.
- `Folding`: generic fold lemmas.
- `NameSort`: sorting by name.
- `Encoding`: UTF-8 and base 64.
- `XmlParser`: the decoder.
- `JamfClient`: the client.

Behaviour the model keeps as the code has it:
- Character data that arrives in several chunks overwrites the field; the
  chunks are not concatenated.
- The fetches replace their list whatever the HTTP status.
- A login answer that is not an HTTP response skips the status check.
- The JSON details request carries no bearer token.
- The sort is not claimed to be stable.
- The token's expiry is never checked.

## Model

| member | source | states |
|---|---|---|
| `XmlParser.JamfXMLParser.constructor` | JamfApp/JamfXMLParser.swift:5-22 | A fresh delegate has no computers, no mobile devices, no detail record, and all scratch strings empty. |
| `XmlParser.JamfXMLParser.DidStartElement` | JamfApp/JamfXMLParser.swift:39-59 | The element name becomes `currentElement`. `computer` and `mobile_device` also set the device type and empty all thirteen scratch fields. Any other tag keeps them. The outputs are untouched. |
| `XmlParser.JamfXMLParser.FoundCharacters` | JamfApp/JamfXMLParser.swift:61-95 | The text is trimmed first. Text that is blank after trimming leaves the whole delegate unchanged. Otherwise only the scratch field named by `currentElement` can change. |
| `XmlParser.JamfXMLParser.StoreText` | JamfApp/JamfXMLParser.swift:65-94 | The `switch` over the thirteen element names stores the trimmed text into exactly the field `Stored` names. |
| `XmlParser.JamfXMLParser.DidEndElement` | JamfApp/JamfXMLParser.swift:97-114 | `</computer>` appends one record of the five current fields. `</mobile_device>` appends one of its six fields. `</general>` replaces the detail record with the ten current fields. The scratch fields and `currentElement` are not reset. |
| `XmlParser.JamfXMLParser.Parse` | JamfApp/JamfXMLParser.swift:24-36 | After the loop, the delegate's state is the fold of the callbacks over every event, in order. The fold starts from the state the delegate had, so outputs accumulate across calls. The result is the output the type tag selects. |
| `XmlParser.StartElementResets` | JamfApp/JamfXMLParser.swift:40-58 | A start tag sets `currentElement` to its name. Only `computer`/`mobile_device` reset the scratch fields to "". Nothing else in the state changes. |
| `XmlParser.CharactersOverwriteOneField` | JamfApp/JamfXMLParser.swift:61-94 | Blank text changes nothing. Only the scratch record can change. Non-blank text overwrites, without appending, exactly the field whose name equals `currentElement`, with the trimmed text. A name outside the thirteen changes nothing. |
| `XmlParser.StoredOverwritesOneField` | JamfApp/JamfXMLParser.swift:65-94 | Storing under an element name replaces that one field and keeps every other field. |
| `XmlParser.StoredKeepsOtherField` | JamfApp/JamfXMLParser.swift:65-94 | Fields whose element name differs from the current element are kept. |
| `XmlParser.StoredWritesOwnField` | JamfApp/JamfXMLParser.swift:65-94 | Storing under a field's own element name writes the text into that field. |
| `XmlParser.StoredIsSet` | JamfApp/JamfXMLParser.swift:65-94 | Storing under a field's own element name replaces exactly that field of the record. |
| `XmlParser.StepOutputs` | JamfApp/JamfXMLParser.swift:39-114 | One event changes `devices` only at `</computer>`, `mobildevices` only at `</mobile_device>`, the detail only at `</general>`, and `currentElement` only at a start tag. |
| `XmlParser.RunAppend` | JamfApp/JamfXMLParser.swift:24-27 | Feeding two event sequences one after the other is feeding their concatenation. |
| `XmlParser.DevicesGrowAtComputerEnds` | JamfApp/JamfXMLParser.swift:98-102 | `devices` keeps its old entries and grows by exactly one entry per `</computer>`: by the multiplicity of that event in the document. |
| `XmlParser.ComputerEndEmitsRecord` | JamfApp/JamfXMLParser.swift:98-102 | The k-th `</computer>` produces the k-th new entry: the record of the scratch fields just before that tag. So the order is document order. |
| `XmlParser.StepDevices` | JamfApp/JamfXMLParser.swift:98-102 | For every state and event, `devices` grows by the current computer record at `</computer>` and is otherwise unchanged. |
| `XmlParser.MobileDevicesGrowAtMobileDeviceEnds` | JamfApp/JamfXMLParser.swift:103-107 | `mobildevices` keeps its old entries and grows by exactly one entry per `</mobile_device>`: by the multiplicity of that event in the document. |
| `XmlParser.MobileDeviceEndEmitsRecord` | JamfApp/JamfXMLParser.swift:103-107 | The k-th `</mobile_device>` produces the k-th new entry, built from the scratch fields just before it. |
| `XmlParser.StepMobileDevices` | JamfApp/JamfXMLParser.swift:103-107 | For every state and event, `mobildevices` grows by the current record at `</mobile_device>` and is otherwise unchanged. |
| `XmlParser.DetailsWithoutGeneral` | JamfApp/JamfXMLParser.swift:108-113 | Without a `</general>`, the detail record stays what it was. |
| `XmlParser.DetailsFromLastGeneral` | JamfApp/JamfXMLParser.swift:108-113 | The detail record is the one built at the last `</general>` (last wins). |
| `XmlParser.StepDetails` | JamfApp/JamfXMLParser.swift:108-113 | For every state and event, the detail becomes the current record at `</general>` and is otherwise unchanged. |
| `XmlParser.CurrentElementIsLastOpened` | JamfApp/JamfXMLParser.swift:40 | End tags never clear `currentElement`. After a run it names the last element opened, so text after a closing tag still lands in that element's field. |
| `XmlParser.RunSnoc` | JamfApp/JamfXMLParser.swift:24-27 | Feeding one more event applies one more callback. |
| `XmlParser.RunTriple` | JamfApp/JamfXMLParser.swift:24-27 | Feeding `<tag>text</tag>` applies the three callbacks in order. |
| `XmlParser.OtherElementKeepsOutputs` | JamfApp/JamfXMLParser.swift:97-114 | A whole element other than `computer`, `mobile_device` or `general` leaves the three outputs alone. |
| `XmlParser.FieldElementStores` | JamfApp/JamfXMLParser.swift:61-94 | `<f>v</f>`, with `v` already trimmed, sets field `f` to `v` when the field was empty. The rest of the scratch record and the outputs are unchanged. |
| `XmlParser.ComputerFieldsStore` | JamfApp/JamfXMLParser.swift:65-83 | The five field elements of a computer fill an empty scratch record with exactly that computer's fields. |
| `XmlParser.ComputerElementDecodes` | JamfApp/JamfXMLParser.swift:39-102 | A `<computer>` element with trimmed texts appends exactly its record to `devices`. The other outputs are unchanged. |
| `XmlParser.ComputerElementsDecode` | JamfApp/JamfXMLParser.swift:39-102 | A run of `<computer>` elements appends their records, in order. |
| `XmlParser.DecodeComputerInventory` | JamfApp/JamfXMLParser.swift:24-36 | Decoding a computer inventory document for `.jamfDevice` returns exactly the computers it carries, in document order. This is the round trip from records to XML and back. |
| `Text.TrimStartCutsDroppedPrefix` | JamfApp/JamfXMLParser.swift:62 | Trimming the start removes only a prefix of dropped characters, and what is left starts with a kept one. |
| `Text.TrimEndCutsDroppedSuffix` | JamfApp/JamfXMLParser.swift:62 | Trimming the end removes only a suffix of dropped characters, and what is left ends with a kept one. |
| `Text.TrimByEnds` | JamfApp/JamfXMLParser.swift:62-63 | The trimmed text has no dropped character at either end. It is empty exactly when every character is dropped. Text already without such ends is returned unchanged. |
| `Text.TrimIsInnerSlice` | JamfApp/JamfXMLParser.swift:62 | Trimming returns a contiguous slice of the input, and only dropped characters lie outside it. |
| `Text.TrimIdempotent` | JamfApp/JamfXMLParser.swift:62 | Trimming twice is trimming once. |
| `Text.TrimWhitespace` | JamfApp/JamfXMLParser.swift:62-63 | `trimmingCharacters(in: .whitespacesAndNewlines)` leaves no whitespace at either end. It yields "" exactly for blank text, which is the `guard` at line 63. |
| `Text.BelowIrreflexive` | JamfApp/JamfAPI.swift:101 | No name sorts before itself. |
| `Text.BelowTransitive` | JamfApp/JamfAPI.swift:101 | The name order `<` is transitive. |
| `Text.BelowTotal` | JamfApp/JamfAPI.swift:101 | Two different names are ordered one way or the other. |
| `Text.BelowAsymmetric` | JamfApp/JamfAPI.swift:101 | `a < b` excludes `b < a`. |
| `Text.NotAfterTotal` | JamfApp/JamfAPI.swift:140 | `<=` on names is total. |
| `Text.NotAfterTransitive` | JamfApp/JamfAPI.swift:140 | `<=` on names is transitive. |
| `Text.NotAfterAntisymmetric` | JamfApp/JamfAPI.swift:140 | Names with `a <= b` and `b <= a` are equal. |
| `NameSort.SortBy` | JamfApp/JamfAPI.swift:99-101 | `sorted { $0.name < $1.name }` gives a list that is ascending by name and a permutation of its input. |
| `NameSort.Insert` | JamfApp/JamfAPI.swift:99-101 | Inserting into a sorted list keeps it sorted and adds exactly the one element. |
| `NameSort.SortedKeysUnique` | JamfApp/JamfAPI.swift:138-140 | Two sorted permutations of the same records have the same name at every position. Whatever order an unstable sort picks among equal names, the displayed names are determined. |
| `Encoding.Utf8RoundTrip` | JamfApp/JamfAPI.swift:34-35 | The UTF-8 bytes of `username:password` decode back to the same string. |
| `Encoding.DecodeCharBytes` | JamfApp/JamfAPI.swift:35 | The one-to-four-byte UTF-8 form of each character decodes back to that character. |
| `Encoding.Base64RoundTrip` | JamfApp/JamfAPI.swift:40 | `base64EncodedString()` output decodes back to the same bytes. |
| `Encoding.Base64Length` | JamfApp/JamfAPI.swift:40 | The encoding has four characters per started group of three bytes. |
| `Encoding.DecodeQuantumOfGroup` | JamfApp/JamfAPI.swift:40 | Each group of one to three bytes, padded with `=`, decodes back from its four characters. |
| `JamfClient.BasicHeaderCarriesCredentials` | JamfApp/JamfAPI.swift:34-41 | The login `Authorization` header is "Basic " followed by base 64 of the UTF-8 of `username:password`. A server decodes exactly that string back from it. |
| `JamfClient.UserIdBeforeFirstColon` | JamfApp/JamfAPI.swift:34 | For a user name without a colon, the text before the first colon of the credentials is the user name. |
| `JamfClient.BearerHeaderCarriesToken` | JamfApp/JamfAPI.swift:86 | The bearer header carries exactly the token. |
| `JamfClient.JsonDetailsRequestHasNoCredentials` | JamfApp/JamfAPI.swift:199-202 | The JSON details request has the single header `accept: application/json`. Assigning all header fields drops the bearer header set just before. |
| `JamfClient.CommandSucceedsExactlyOn201` | JamfApp/JamfAPI.swift:242-258 | A command reports success exactly on status 201, with "<command> wurde durchgeführt". A transport error reports (false, "Error <command> device: <description>"); any other HTTP status reports (false, "Fehler, versuch es später erneut"). The completion is never called for a response that is not HTTP. |
| `JamfClient.JamfAPI.constructor` | JamfApp/JamfAPI.swift:5-14 | A new client has empty lists, no detail, no JSON, no token and empty settings. |
| `JamfClient.JamfAPI.Configure` | JamfApp/JamfAPI.swift:16-20 | Stores username, password and server URL. Nothing else, the token included, can change. |
| `JamfClient.JamfAPI.Authenticate` | JamfApp/JamfAPI.swift:22-70 | An invalid URL completes false with no request sent. Otherwise a POST with `Accept` and Basic headers is sent. The completion gets true exactly when four things hold: no transport error, the status is 200 or the response is not HTTP, there is a body, and it decodes. Only then is the token replaced, by the decoded token. Every other completion is false and keeps the old token, except a response without data, which never completes. |
| `JamfClient.JamfAPI.FetchComputers` | JamfApp/JamfAPI.swift:72-109 | No request and no change without a valid URL and a token. Otherwise a bearer GET is sent. When a body arrives, whatever the status, `computers` becomes the decoded list sorted ascending by name, as a permutation of it. Otherwise it is unchanged. |
| `JamfClient.JamfAPI.FetchMobileDevices` | JamfApp/JamfAPI.swift:111-148 | The same as `FetchComputers`, for `mobileDevices`. |
| `JamfClient.JamfAPI.FetchMobileDeviceDetails` | JamfApp/JamfAPI.swift:150-185 | A bearer GET only with a valid URL and a token. The detail is replaced only when the body decodes to a detail record, and otherwise left as it was. |
| `JamfClient.JamfAPI.FetchMobileDeviceDetailsJson` | JamfApp/JamfAPI.swift:187-223 | The request goes out only with a valid URL and a token, and carries only the `accept` header. A JSON object body replaces the stored object. Any other JSON value clears it. A body that does not parse leaves it alone. |
| `JamfClient.JamfAPI.SendCommandDevice` | JamfApp/JamfAPI.swift:226-261 | An invalid URL gives (false, "Invalid URL"). A missing token gives (false, "Auth token is missing"). Neither sends a request. Otherwise a bearer POST to the command URL is sent, and the completion is the command answer. No field changes. |

## Left out

- Networking: `URLSession` data tasks and `DispatchQueue.main.async` are not modelled, and neither is the order in which concurrent fetches finish. Each operation takes its network outcome as a parameter.
- Library decoders: Foundation's `XMLParser` tokenizer, `JSONDecoder` and `JSONSerialization` are not modelled. Their results are inputs: an event sequence, `Option<AuthResponse>`, or a `JsonParse`.
- URL validity: whether `URL(string:)` accepts a string is the parameter `validUrl`.
- `JamfClient.JamfAPI.Authenticate`: the guard for a failed UTF-8 encoding (lines 35-39) cannot fire in the model, because every Dafny string is made of Unicode scalar values and always encodes.
- Logging: `print` calls are not modelled.
- Views and storage: the SwiftUI views and the keychain storage of credentials are not part of this model.
- Name order: Swift's `String <` compares by Unicode canonical equivalence. The model orders names lexicographically by code point, which agrees with Swift on text in Unicode normalization form C (NFC). Two canonically equivalent spellings, such as U+212B ANGSTROM SIGN and U+00C5, are equal in Swift but ordered by the model.
- `Text.IsWhitespaceOrNewline`: lists the code points of Foundation's `whitespacesAndNewlines` (categories Zs, Zl and Zp, U+0009–U+000D and U+0085). It is not derived from the Unicode database.
- Header names: they are map keys compared exactly. `URLRequest` compares them without regard to case.
- `XmlParser.JamfXMLParser.DidStartElement`: the thirteen `current*` properties are modelled as the components of one field `current`.
- `XmlParser.DecodeComputerInventory`: proved for computer documents only. The mobile-device and detail documents are covered by the per-tag lemmas, not by a separate round trip.
- The `map` copy before sorting (JamfAPI.swift:99-100, 138-139): it rebuilds each record field for field, which yields an equal record, so the model sorts the decoded list directly.
