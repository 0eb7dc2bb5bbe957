# joku: Roku External Control Protocol encoder and device collection, in Dafny

`joku` is a command-line remote for Roku devices. It turns a typed command
into a path of the Roku External Control Protocol (ECP), such as
`keypress/Home`, `search/browse?...` or `launch/837?contentId=...`. It also
discovers devices on the local network by probing each responder's
`query/device-info` and reading its `friendly-device-name` element.

This project models:

- the current encoder in `src/roku.rs`, in module `Roku`: `Display for RokuCommand`, `LaunchParams::path`, `RokuApp::from_str` and `RokuApp::id`;
- the device-collection loop of `get_roku_devices`, in module `Discovery`, as a deterministic fold over probe outcomes that have already arrived in some order;
- the earlier encoder revision in `src/main.rs`, in module `Legacy`: the `search/browser` route, the reserved-character filter, the removal of the word "Search", and `urlify` onto the fixed device address.

The thirteen keypress keys and their `keypress/<Name>` paths are common to both revisions. They are defined once, in module `Keys`. Module `Revisions` relates the two encoders. `Ascii` holds the ASCII case mapping, and `Wrappers` holds `Option` and `Result`.

Foreign libraries enter as parameters and are not modelled:

- `serde_qs::to_string` is a function from the search parameters (in `Legacy`, from the whole command) to an uninterpreted query string.
- `Url::parse` followed by `query_pairs` is a function from the content link to `Some` list of decoded `(key, value)` pairs, or to `None` when the link is not a URL.
- The XML reader's output is a list of events. Each element-start event carries the text `read_text` returns for that element, taken as an uninterpreted string.

## Behaviour of the code worth noting

- **Discovery stops at the first failed probe.** `while let Some(Ok(info))` (src/roku.rs:230) ends the loop at the first `Err`, so replies that arrive after it are never read. `Discovery.FailureFirstHidesLaterDevices` shows the consequence.
- **No validation of the search keyword.** An empty keyword is serialized like any other value.
- **No app catalog.** There is one app, `YouTube`, whose id `837` is hard-coded. An ambiguous app name therefore cannot arise. No `query/apps` or `ListApps` command exists.
- **The content link is required.** `LaunchParams` always carries a link. The path is `<app id>?contentId=<v>`, and the launch fails when no `v` can be extracted. The code has no `launch/<id>` path without a link.
- **`Discover` encodes to the empty string.** It is not an error.
- **The encoder adds no escaping of its own.** The search query string is exactly what `serde_qs` returns. In the earlier revision it is also filtered and the word "Search" is removed.

## Model

| member | source | states |
|---|---|---|
| Keys.KeypressLiterals | src/roku.rs:129-143 | each of the thirteen keys is sent as the literal `keypress/<Key>` path, spelled as the variant |
| Keys.KeypressPathInjective | src/roku.rs:131-143 | two keys share a keypress path if and only if they are the same key |
| Keys.NameRoundTrip | src/roku.rs:131-143 | every key's protocol name is read back as that key |
| Keys.FromName | src/roku.rs:131-143 | a name that is accepted is exactly the name of the key it returns |
| Keys.KeypressPath | src/roku.rs:129-143 | a key's path is `keypress/` followed by its name; that the key is read back from it is stated by `Keys.KeypressPathReadBack`, and each literal path by `Keys.KeypressLiterals` |
| Keys.KeypressPathReadBack | src/roku.rs:129-143 | the key is read back from its keypress path, so the path determines the key |
| Ascii.ToLower | src/roku.rs:109 | ASCII lower-casing keeps the length and lower-cases each letter on its own |
| Ascii.ToLowerMatches | src/roku.rs:109-110 | a string lower-cases to a lower-case word exactly when it spells that word with letters in any case |
| Roku.ParseApp | src/roku.rs:108-113 | a rejected app name is reported as "Unknown Roku app" with the name as given |
| Roku.AppId | src/roku.rs:120-124 | the app is addressed by a non-empty decimal channel id (`837` for YouTube, pinned by `Roku.LaunchYouTubeUsesLastVideoKey`) |
| Roku.ParseAppAcceptsCaseVariants | src/roku.rs:108-113 | the app parser yields `YouTube` for exactly the case variants of "youtube"; every other string is rejected with that string |
| Roku.CollectQuery | src/roku.rs:79 | the collected query map has exactly the keys that occur in the link's query pairs |
| Roku.CollectQueryLastWins | src/roku.rs:79-80 | for a key that occurs several times, the map holds the value of its last occurrence |
| Roku.ContentId | src/roku.rs:75-87 | a content id is found exactly when the link parses as a URL and its query has a `v` pair; which value is taken is stated by `Roku.CollectQueryLastWins` |
| Roku.LaunchPath | src/roku.rs:74-90 | the only error of the launch path is "Invalid content identifier" |
| Roku.LaunchPathFailsWithoutVideoKey | src/roku.rs:75-87 | the launch path fails exactly when the link does not parse as a URL or its query has no `v` pair, and encoding then fails with that error |
| Roku.LaunchYouTubeUsesLastVideoKey | src/roku.rs:76-89 | a YouTube launch whose link has its last `v` pair at some index encodes to `launch/837?contentId=` followed by that pair's value |
| Roku.Encode | src/roku.rs:127-165 | only a launch can fail to encode, exactly when its path cannot be built, and the failure is the invalid content identifier |
| Roku.CollectChars | src/roku.rs:146-149 | collecting the serialized query string character by character leaves it unchanged |
| Roku.SearchEncoding | src/roku.rs:144-151 | a search encodes to `search/browse?` followed by the serialized query string, unaltered |
| Roku.FixedPaths | src/roku.rs:131-161 | device info encodes to `query/device-info`, `Discover` to the empty path, and `Pause` to `keypress/Pause` |
| Roku.KeypressEncodingInjective | src/roku.rs:129-143 | two key presses encode to the same path if and only if they are the same key |
| Roku.ClassifyInvertsEncode | src/roku.rs:127-165 | every encoded path is read back as the command shape that produced it: no two command kinds share a path, and the key, query string or launch target is recovered |
| Discovery.FriendlyNameIsFirstNameElement | src/roku.rs:235-251 | a reply's name is the text of its first `friendly-device-name` start element that comes before any end of input; it has no name exactly when an end of input precedes every such element |
| Discovery.FriendlyName | src/roku.rs:235-251 | defined by recursion over the events; its meaning, the first name element before any end of input, is stated by `Discovery.FriendlyNameIsFirstNameElement` |
| Discovery.ScanForName | src/roku.rs:235-252 | the event loop over one reply finds the name defined by that first-element rule |
| Discovery.DeviceOf | src/roku.rs:237-247 | a reply contributes at most one device, exactly when it has a name, and that device pairs the name with the reply's address |
| Discovery.FailurePointIsFirstFailure | src/roku.rs:230 | all outcomes before the stopping point are replies, and the outcome at it is the first failure |
| Discovery.CollectDevices | src/roku.rs:230-253 | defined as a fold; what it collects is stated by `Discovery.FailurePointIsFirstFailure`, `Discovery.CollectedDeviceHasSource`, `Discovery.CollectIsComplete` and `Discovery.CollectStopsAtFailure` |
| Discovery.Collect | src/roku.rs:227-255 | the collection loop returns the devices of the replies before the first failed probe, in the order consumed |
| Discovery.CollectAtMostOnePerReply | src/roku.rs:230-253 | there are no more devices than successful outcomes before the first failure |
| Discovery.CollectedDeviceHasSource | src/roku.rs:230-247 | every collected device is the name and address of some reply before the first failure |
| Discovery.CollectIsComplete | src/roku.rs:237-246 | every named reply preceded only by replies yields its device |
| Discovery.CollectAppend | src/roku.rs:230-253 | after a run of replies, the devices are those of the run followed by those of the rest |
| Discovery.CollectSplitsAtReply | src/roku.rs:242-246 | a reply's device appears after the devices of earlier replies and before those of later ones |
| Discovery.CollectStopsAtFailure | src/roku.rs:230 | nothing after the first failed outcome reaches the device list |
| Discovery.UnnamedReplyContributesNothing | src/roku.rs:248 | a reply that reaches end of input before any name element contributes no device |
| Discovery.FailureFirstHidesLaterDevices | src/roku.rs:230 | a failure ahead of a named reply yields no devices; the same reply ahead of the failure yields its device |
| Legacy.StripReserved | src/main.rs:51-52 | the filtered query string contains none of the twelve reserved characters and is no longer than the input |
| Legacy.StripReservedIsDeletion | src/main.rs:76-79 | filtering only deletes characters: the result is a subsequence of the input |
| Legacy.StripReservedKeepsOthers | src/main.rs:78 | every character that is not reserved is kept as many times as it occurs |
| Legacy.StripReservedKeepsClean | src/main.rs:78 | filtering leaves a string unchanged exactly when it has no reserved character |
| Legacy.StripReservedIdempotent | src/main.rs:76-79 | filtering twice gives the same string as filtering once |
| Legacy.RemoveAll | src/main.rs:80 | deleting the word never lengthens the string |
| Legacy.RemoveAllIsDeletion | src/main.rs:80 | deleting the word only deletes characters: the result is a subsequence of the input |
| Legacy.RemoveAllWithoutOccurrence | src/main.rs:80 | a string with no occurrence of the word is returned unchanged |
| Legacy.RemoveAllSkipsMatch | src/main.rs:80 | an occurrence at the start is deleted and matching resumes right after it |
| Legacy.RemoveAllKeepsHead | src/main.rs:80 | a string that does not start with the word keeps its first character |
| Legacy.RemoveAllFirstOccurrence | src/main.rs:80 | the first occurrence is deleted, the text before it is kept, and matching resumes after it, so occurrences never overlap |
| Legacy.RemoveAllAdjacent | src/main.rs:80 | two back-to-back occurrences of "Search" are both deleted |
| Legacy.RemoveAllIsSinglePass | src/main.rs:80 | the deletion is a single left-to-right pass: "SeaSearchrch" becomes "Search" |
| Legacy.CleanQuery | src/main.rs:74-80 | the cleaned query string has no reserved character after the word is removed, and is no longer than the serialized one |
| Legacy.Encode | src/main.rs:54-87 | a key press's path is read back as its key; a search path starts with `search/browser?` and is read back as no key |
| Legacy.SearchEncoding | src/main.rs:71-83 | a search encodes to `search/browser?` followed by the cleaned query string; no reserved character remains before or after the removal |
| Legacy.UrlifyOnFixedDevice | src/main.rs:114-116 | every URL is `http://192.168.1.3:8060/` followed by the command's path: the device address is fixed |
| Legacy.Urlify | src/main.rs:114-116 | the command's path is recovered from the URL by stripping the device address |
| Legacy.KeypressEncoding | src/main.rs:58-70 | key presses encode to `keypress/<Key>`, and Home is sent to `http://192.168.1.3:8060/keypress/Home` |
| Revisions.KeypressPathsAgree | src/main.rs:56-70 | both revisions send every key press to the same path, since both use the one shared keypress definition |
| Revisions.LegacySearchPathNotRecognised | src/main.rs:72 | the earlier `search/browser` path matches no command path of the later encoder |

## Left out

- `serde_qs::to_string` (src/roku.rs:146, src/main.rs:74) is a foreign serializer. Its output is an uninterpreted string supplied by a parameter, and its `unwrap` is taken never to fail.
- `Url::parse` and `query_pairs` (src/roku.rs:78-79) are foreign URL parsing. The parsed pairs, or `None`, are supplied by a parameter.
- `urlify` in src/lib.rs and `Url::join` are foreign URL semantics and are not modelled. The earlier revision's string `urlify` is modelled.
- SSDP discovery (`get_roku_addr`), HTTP sending (`send_cmd`, `RokuClient::send`) and the status logging in src/main.rs are network I/O.
- The `buffer_unordered(5)` fan-out is concurrency. The model folds over outcomes already in arrival order, and that order is arbitrary.
- `info.text().await?` (src/roku.rs:232) is async I/O. Its error would end discovery with an error; the model assumes the body is read.
- `remote_addr().unwrap()` (src/roku.rs:231) is assumed to succeed. The address is part of each outcome.
- XML tokenizing and `read_text` come from a library. So do the panics on a malformed document (src/roku.rs:249) and on unreadable text (src/roku.rs:240). A reply is its list of events, and an element's text is the string `read_text` returns, taken as uninterpreted.
- `try_from_config`, TOML, StructOpt argument parsing, tracing and `Display for RokuDevice` are configuration and I/O wrappers.
- Ascii.ToLower: covers only the ASCII part of Rust's Unicode `to_lowercase`. No other character lower-cases to a letter of "youtube", so the app-name comparison is not affected.
- Roku.Encode: the panic on bad launch parameters (src/roku.rs:158) is the `Failure` result rather than an abort.
- Discovery.SocketAddr: the port is an unbounded integer, and the host is its textual form.
