# SMS-to-Telegram relay: frame handling, alert formatting, keepalive flag and retry loop

The relay keeps a Socket.IO session open on the `/livesms` namespace of an upstream
WebSocket. It turns every SMS event it receives into an HTML alert for a Telegram group.
This project models, in Dafny, the decision logic of `main.py`:

- **Frame classification** (`Frames`). An Engine.IO pong `3`, the Socket.IO CONNECT
  acknowledgment `40/livesms` and the Socket.IO EVENT prefix `42/livesms,` are tested in that
  order, and anything else is ignored.
- **Event decoding** (`Handler`). Here `json.loads` is a parameter `loads` (None stands for a
  parse failure). The shape guard "a list of more than one element with a dict at index 1"
  follows. Then come `.get` with its defaults ("" / "Unknown" / "" / "??"), the upper-cased
  country, and Python's behaviour on values of the wrong type. The whole of `on_message` is
  `Handler.Handle`, a function of the frame, of `loads` and of the clock reading.
- **OTP extraction** (`Otp`). This is a hand-written scan with the result of
  `re.search(r'\b\d{3}[- ]?\d{3}\b|\b\d{6}\b', msg)`: the leftmost match, with the alternatives
  tried in the engine's order, or "N/A".
- **Alert formatting** (`Alert`, `Html`). It covers the recipient mask `⁕…⁕` plus the last four
  characters, the WhatsApp service guess, `strftime("%H:%M:%S")`, `html.escape` with
  `quote=True`, and the fixed template.
- **Delivery** (`Delivery`). This is the `for attempt in range(retries)` loop of
  `send_to_telegram`. `attempt(k)` is the outcome of the k-th request, and sleeps are counted.
- **Keepalive flag** (`Session`). The class `Relay` holds `start_pinging`, `ws.keep_running`,
  the liveness of the `send_ping` loop and the frames written to the socket. Its methods are
  the callbacks `on_open`, `on_message` and `on_close`, plus one pass of the ping loop. A
  ghost history of events backs the invariant "every ping follows a join-ack with no open or
  close in between". Every method preserves it, so it holds for every interleaving of
  callbacks and ping-loop passes.

Notes on the program's behaviour:

- The ping loop is started in `on_open`, before the join-ack. While the flag is false it keeps
  looping and sleeping instead of stopping.
- `send_to_telegram` is called synchronously from `on_message`; it is not fire-and-forget.
- Only status 200 counts as success, not every 2xx.
- There is no explicit connection state beyond the flag and `keep_running`.

## Model

| member | source | states |
|---|---|---|
| Frames.ClassifyCharacterised | main.py:94-101 | a frame is a heartbeat iff it is "3", a join-ack iff it starts with "40/livesms", an event iff it starts with "42/livesms," (its payload then being the frame minus that 11-character prefix), and ignored iff none of these holds |
| Frames.ClassifyRender | main.py:94-101 | rendering a heartbeat, join-ack or event frame and classifying it gives the same frame back, so no test shadows another |
| Frames.EventIff | main.py:99-101 | a frame classifies as Event(p) exactly when it is "42/livesms," followed by p |
| Json.Get | main.py:106-109 | `dict.get` finds nothing exactly when no key matches, and otherwise returns a value stored under that key |
| Handler.DecodeSms | main.py:104-109 | the result is UnexpectedFormat exactly when the value is not a list of length > 1 with a dict at index 1; any other failure is a field type error |
| Handler.HandleNonEvent | main.py:94-98 | "3" gives a pong, a "40/livesms" frame a join, every other non-event frame is ignored; none of them yields an alert |
| Handler.HandleGuard | main.py:99-147 | an alert is produced only for an event frame whose payload parses to a list of length > 1 with a dict at index 1; a parse failure or any other shape drops the frame without raising |
| Handler.DecodeOkIff | main.py:104-112 | a frame decodes exactly when it passes the shape guard and `message` and `country_iso` are each absent or a str |
| Handler.DecodeMessage | main.py:106 | in a decoded frame the message is "" when the key is missing and otherwise the str stored under it |
| Handler.DecodeOriginator | main.py:107 | in a decoded frame the originator is "Unknown" when the key is missing, the stored str as it is, and any other value as its `str` |
| Handler.DecodeRecipient | main.py:108 | in a decoded frame the recipient is "" when the key is missing and otherwise the stored value, whatever its type |
| Handler.DecodeCountry | main.py:109 | in a decoded frame the country is "??" when the key is missing and otherwise the stored str upper-cased; it has no lower-case letter |
| Json.StrReprPlain | main.py:129 | inside a non-str originator, a str with no quote, backslash or control escape is shown as itself in single quotes, as Python's `repr` shows it |
| Json.StrListExample | main.py:129 | the originator `["a", -1]` is shown as `['a', -1]` |
| Text.NatToDecimalReadBack | main.py:129 | the digits of `str(n)` spell `n`, with no leading zero except for 0 |
| Text.IntToDecimalReadBack | main.py:129 | `str(n)` of an int is a minus sign exactly for a negative number, followed by the digits of its magnitude |
| Handler.DecodeTypeError | main.py:106-112 | a message or country_iso that is not a str makes the frame be dropped (the exception of `.upper()` or `re.search` is caught) |
| Handler.HandleAlert | main.py:104-141 | a well-formed event yields exactly the template filled from its fields; the code shown is the OTP scan of the message, and the message body can be recovered intact from the alert text |
| Handler.SampleFrame | main.py:92-141 | the sample WhatsApp event gives country "US", code "123-456", service "WhatsApp" and recipient "⁕⁕⁕⁕⁕⁕⁕4567" |
| Otp.MatchAt | main.py:112 | at one position the engine reports a 7-character match exactly for 3 digits, a `-` or space, and 3 digits between word boundaries, and a 6-character match exactly for 6 digits between word boundaries |
| Otp.SearchFrom | main.py:112 | the scan finds nothing exactly when no position from the start matches; otherwise it returns the first matching position and that position's match |
| Otp.SecondAlternativeRedundant | main.py:112 | the alternative `\b\d{6}\b` matches exactly where the first alternative without its separator matches, so it never changes the result |
| Otp.ExtractNoMatch | main.py:112-113 | the code is "N/A" exactly when no position of the message matches |
| Otp.ExtractLeftmost | main.py:112-113 | at the leftmost matching position the code is the substring matched there, bounded by `\b` on both sides, and is 6 digits or 3 digits + separator + 3 digits |
| Otp.ExtractShape | main.py:112-113 | every code is "N/A", six digits, or three digits, a `-` or space, and three digits |
| Alert.Mask | main.py:116-119 | for a recipient of length >= 4 the mask has the same length, keeps the last 4 characters and shows ⁕ everywhere else; a shorter recipient gives "Unknown" |
| Alert.MaskRevealsOnlyTail | main.py:116-117 | two recipients of equal length with the same last four characters get the same mask |
| Alert.MaskRecipient | main.py:116-119 | a str is masked, the handler raises exactly for a truthy bool or number or a list or dict of four or more elements, and every other non-str value gives "Unknown" |
| Alert.Service | main.py:122 | the service is "WhatsApp" iff the lower-cased message contains "whatsapp", and "Unknown" otherwise |
| Text.Contains | main.py:122 | the scan answers true exactly when the needle occurs at some position of the haystack |
| Text.UpperIsUpper | main.py:109 | an upper-cased string has no lower-case ASCII letter, and upper-casing it again changes nothing |
| Alert.Hms | main.py:121 | the time field is 8 characters with colons at positions 2 and 5 |
| Alert.ParseHmsRoundTrip | main.py:121 | the HH:MM:SS text reads back as the clock reading it was made from |
| Alert.BodyOfTemplate | main.py:125-139 | whatever the message, the text after the last tag before the fixed footer of the alert unescapes to exactly the raw message, so the body cannot close its `<code>` element |
| Html.EscapeChar | main.py:136 | a character is kept iff it is none of & < > " '; those become a reference that starts with & and contains none of them afterwards |
| Html.EscapeIsSafe | main.py:136 | the escaped body contains no raw <, >, " or ' |
| Html.EscapeAmpersands | main.py:136 | every & of the escaped body begins one of &amp; &lt; &gt; &quot; &#x27; |
| Html.UnescapeEscape | main.py:136 | decoding the five references undoes the escaping, so no character of the body is lost |
| Delivery.SendToTelegram | main.py:45-62 | at most `retries` requests are made; the result is true exactly when one of the first `retries` outcomes is status 200, and then the last request made was the first such one; false comes only after all `retries` fail; there is one sleep between consecutive requests, never after the last |
| Session.FlagMeansJoined | main.py:77-154 | the flag is set iff a join-ack has been received since the last open or close |
| Session.FlagDownUntilJoin | main.py:77-98 | after an open the flag stays false until a join-ack arrives, whatever else happens meanwhile |
| Session.Relay.constructor | main.py:13 | the flag starts false, with no connection and nothing sent |
| Session.Relay.OnOpen | main.py:77-90 | the flag is reset, "40/livesms" and the auth frame are sent in that order, and a ping loop starts on the running connection |
| Session.Relay.OnMessage | main.py:92-147 | the reaction is `Handle` of the frame; only a join-ack sets the flag and nothing clears it; an alert is handed on and is delivered iff one of its three attempts returns 200; nothing is sent upstream |
| Session.Relay.OnClose | main.py:152-157 | the flag is reset and the connection stops running |
| Session.Relay.PingTick | main.py:65-75 | a "3" is sent iff the loop is alive, the connection is running and the flag is set, and the send succeeds; every ping follows a join-ack since the last open or close; the loop ends when the connection stops or a send fails |

## Left out

- The WebSocket transport, `run_forever` and the connection headers (main.py:159-177) are library I/O. Frames arrive as method arguments.
- Threads and the reconnect recursion through `start_ws_thread` (main.py:157, main.py:179-181) are not modelled. One `Relay` stands for the process. The ping loop of a closed connection and the loop of its successor are one `pinging` field, which `OnOpen` restarts.
- The sleeps in `on_open`, `on_close` and `send_ping` are not modelled. Those of `send_to_telegram` are modelled as counted delays, not performed.
- A `ws.send` that raises in `on_open` is not modelled: both handshake frames are always written. A failing ping send is modelled, and ends the ping loop.
- `requests.post`, the Telegram payload and its buttons (main.py:26-43) are a foreign HTTP call. Only each attempt's outcome is modelled.
- `json.loads` is the parameter `loads`. JSON floats are not modelled. A dict is a list of members in insertion order, and `loads` is assumed to return dicts whose keys are distinct, as `json.loads` does: it keeps only the last value of a repeated key. `Json.Get` returns the first member with a key, and `len` counts members, so a value with repeated keys is not one that `loads` stands for.
- `datetime.now` is the clock parameter.
- Binary frames, which would reach `on_message` as bytes, are not modelled.
- The Flask routes (main.py:184-198), the environment configuration (main.py:12-22), `on_error` (main.py:149-150) and all `print` logging are out of scope.
- `\d`, `\b`, `.lower()` and `.upper()` are restricted to ASCII. Python's Unicode digits, word characters and case mappings (such as `ß` becoming `SS`) are not modelled.
- Delivery.SendToTelegram: `delay` is a `nat`. `time.sleep` raises ValueError for a negative delay after the first failed attempt (main.py:60-61), and that exception is not modelled; the only caller (main.py:141) uses the default delay of 5.
- Json.Str: a non-str originator is shown with Python's `repr` for nested values. The escaping of non-printable characters inside nested strings is not modelled.
