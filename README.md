# Radio station search with mirror failover — Dafny model

This project models the decision logic of `src/api.rs` in a small internet-radio
applet. The applet searches the Radio Browser directory by station name. The
directory is served by seven identical mirrors. `search_stations` tries them one
after another, in a fixed order. It returns the first list of stations that
parses. If every mirror fails, it returns only the last mirror's error. The
`Station` record it decodes has nine string fields. Each field is defaulted on
its own: an absent key or a JSON `null` becomes the empty string, a string is
kept, and any other value fails the whole record.

Files:

- `wrappers.dfy` (module `Wrappers`): Rust-style `Option` and `Result`.
- `text.dfy` (module `Text`): `str::trim` with Unicode White_Space, and the
  blank-query test `query.trim().is_empty()`.
- `station.dfy` (module `StationRecord`): tokenised JSON values, the `Station`
  record, `deserialize_null_default`, per-field defaulting, record and list
  decoding, and the derived serializer as a round-trip partner.
- `dispatcher.dfy` (module `Dispatcher`): the mirror list, the request record,
  the four-way attempt outcome, a declarative reference `Search`/`Contacted`,
  and the imperative loop `SearchStations` proved equal to it.

The network is an oracle. `replies[i]` is what mirror `i` would answer.
Either no response arrives, or a response arrives with a status code and a
body. A body either cannot be read as a JSON array of objects, or it is such an
array and still has to be decoded as stations. `Classify` turns a reply into
one of the four outcomes. A status from 400 to 599 is a status failure, as
`error_for_status` decides (src/api.rs:69). Any other status goes on to the
body. The method returns the search result together with the requests it sent.
That is how the model states how many mirrors were contacted, and which ones.

## Model

| member | source | states |
|---|---|---|
| `Text.LeadingWhitespace` | src/api.rs:36 | the count of leading characters dropped by `trim` is exactly the run of whitespace before the first non-whitespace character |
| `Text.TrailingWhitespace` | src/api.rs:36 | the count of trailing characters dropped by `trim` is exactly the run of whitespace after the last non-whitespace character |
| `Text.BlankIffAllWhitespace` | src/api.rs:36 | `query.trim().is_empty()` holds exactly when every character of the query is whitespace (so also for the empty query) |
| `StationRecord.NullDefaultRule` | src/api.rs:4-11 | `deserialize_null_default` on a present value: `null` gives "", a string is kept, and it fails exactly on a value of another type |
| `StationRecord.DecodeStation` | src/api.rs:13-33 | a record decodes exactly when each of its nine fields decodes, and each field of the result is what its own key decodes to |
| `StationRecord.DecodeStations` | src/api.rs:71 | a list of stations decodes exactly when every element does; the result has one station per element, in order |
| `StationRecord.FieldDefaulting` | src/api.rs:15-32 | in a decoded record, an absent or `null` field is "", and a string field holds that string |
| `StationRecord.WrongTypeFailsRecord` | src/api.rs:9 | one field holding neither `null` nor a string fails the whole record, whatever the other fields hold |
| `StationRecord.DecodeSucceedsIff` | src/api.rs:13-33 | a record decodes if and only if none of its nine keys holds a value of the wrong type |
| `StationRecord.FieldsDetermineRecord` | src/api.rs:13-33 | two objects whose nine fields decode alike decode to the same record, or both fail |
| `StationRecord.UnknownKeyIgnored` | src/api.rs:13-14 | adding or changing a key that is not one of the nine fields does not change the decoded record |
| `StationRecord.OneFieldIndependent` | src/api.rs:15-32 | nulling, removing or replacing one field of a decodable object changes that field of the record only |
| `StationRecord.EncodeDecode` | src/api.rs:13-33 | decoding what the derived serializer writes gives the same station back |
| `Dispatcher.Classify` | src/api.rs:62-80 | no response keeps its connection error; a 4xx or 5xx status fails with that status; an unreadable body fails with its detail; a wrongly typed station fails with the invalid-type error; otherwise the attempt succeeds with exactly the decoded station list |
| `Dispatcher.FirstSuccess` | src/api.rs:58-72 | the position the loop stops at: a success, with only failures before it, or past the end when no mirror succeeds |
| `Dispatcher.SearchStations` | src/api.rs:35-85 | the loop returns exactly the reference result `Search` and sends exactly the requests `Contacted` |
| `Dispatcher.BlankQueryShortCircuits` | src/api.rs:36-38 | an empty or all-whitespace query gives `Ok` of an empty list and contacts no mirror |
| `Dispatcher.RequestsInMirrorOrder` | src/api.rs:41-60 | at most seven requests, the i-th to the i-th mirror in list order, each carrying the untrimmed query and limit "20" |
| `Dispatcher.FirstSuccessWins` | src/api.rs:71-72 | if mirror k is the first to succeed, the result is its list and exactly the first k + 1 mirrors were contacted |
| `Dispatcher.AllFailedLastErrorWins` | src/api.rs:73-84 | if every mirror fails, the result is the last mirror's error and every mirror was contacted once |
| `Dispatcher.OnlyLastErrorMatters` | src/api.rs:83-84 | when all mirrors fail, changing the earlier mirrors' failures while the last stays the same does not change the result |
| `Dispatcher.FailureKindsTraverseAlike` | src/api.rs:67-80 | connection, status and parse failures are interchangeable for the traversal: the same success positions give the same requests and the same Ok/Err verdict |
| `Dispatcher.ResultComesFromMirrors` | src/api.rs:56-84 | for a non-blank query the result is `Err` iff every mirror failed, and an `Ok` list is some mirror's parsed list (the initial empty `Ok` never escapes) |
| `Dispatcher.WrongFieldTypeIsParseFailure` | src/api.rs:69-73 | with a status `error_for_status` accepts, one wrongly typed field in any station of the body makes that mirror's attempt a decode failure |
| `Dispatcher.ThirdMirrorAnswers` | src/api.rs:35-85 | query "jazz": a timeout, then a 500, then a 200 with two valid station objects gives those two stations after exactly three requests |
| `Dispatcher.AllMirrorsUnreachable` | src/api.rs:79-84 | query "jazz" with every mirror unreachable fails with the last mirror's connection error |

## Left out

- The HTTP client: its construction, the fallback to a default client, and
  the 5-second timeout (src/api.rs:51-54). The timeout is kept only as the
  constant `AttemptTimeoutSeconds`.
- Async execution and the network itself (src/api.rs:62-65). They are
  replaced by the per-mirror oracle `replies`. The model requires one reply per
  mirror, which is the oracle's shape, not a demand of the source.
- URL building and query-string encoding (src/api.rs:59-63). A request is the
  record (url, name, limit), with the url as the mirror address followed by
  the search path.
- The structure and text of the library's errors. An error is its kind with
  an opaque detail, or with the status code for a rejected status. A wrongly
  typed field yields one fixed detail, because the decoder's message and its
  position in the document are not modelled.
- General JSON parsing. An object is a map from key to tokenised value, so
  duplicate keys cannot be expressed. A body that cannot be read as an array
  of objects is the single `Unparsable` case.
- Stations written in array form. The derived `Deserialize` of `Station`
  also accepts a JSON array of field values, in declaration order, and
  defaults the fields a short array leaves out. The model reads only objects,
  so such a station must be given as the equivalent object.
- Failures while reading the body. A body-read failure, including the
  timeout firing after the response has arrived, ends in the same decode
  error branch (src/api.rs:73). In the model it is written as
  `Unparsable`, which `Classify` turns into a decode failure. `Unreachable`
  covers only failures before a response arrives.
- `Serialize` beyond the round trip `EncodeDecode`, and the `Debug`, `Clone`,
  `PartialEq` and `Eq` derives: they have no behaviour to verify.
