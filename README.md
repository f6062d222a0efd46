# A verified model of the sequential core of `lab10/proxy.c`

`lab10/proxy.c` is a small threaded HTTP proxy. For each client connection it
does the following:

- Reads the request line and accepts only the method GET, compared
  case-insensitively.
- Splits the absolute `http://` URL into host name, port and path with
  `parse_uri`.
- Connects to the origin server and sends it the request line as read,
  followed by `"\r\n"`.
- Relays the server's reply to the client line by line with
  `redir_response`, noting the value of every `Content-Length:` line in a
  caller-owned `size_t`.

`format_log_entry` splits the client's IPv4 address into the four numbers of
its dotted form.

The project models these four pieces in the same form the C code has.

- **`parse_uri`** (`uri.dfy`). `ParseUri` is a method that writes into a
  `UriBuffers` object, which stands for the three caller-owned buffers. It
  walks the URL as the C code does, digit-copying loop included. It is proved
  against `ParseUriSpec`, a pure description of the outcome (`BadScheme`,
  `NoHostEnd` or `Parsed`). `Apply` says what that outcome leaves in the
  buffers. The lemmas state the rules for each part and a round trip from a
  built URL.
- **`redir_response`** (`relay.dfy`). The server's connection is a
  `LineReader`, the sequence of lines successive `Rio_readlineb` calls return.
  The client's connection is a `Sink`, every byte `Rio_writen` has sent. The
  `size_t *` output parameter is a `SizeCell`. `RedirResponse` keeps its loop
  and is proved against two functions: `Concat`, the bytes of the lines in
  order, and `Captured`, the value the last `Content-Length:` line leaves.
- **`doit`** (`request.dfy`). `Doit` is a method over the client's and the
  server's connections, plus a `Dialer` that records the host and port
  `Open_clientfd` is asked for. `Words` is the whitespace tokenizer behind
  `sscanf(buf, "%s %s %s", ...)`.
- **The octet split** (`logentry.dfy`). The address is an unsigned 32-bit
  number, so `x >> k` is division by 2^k and `x & 0xff` is the remainder
  modulo 256.

`ctype.dfy` holds the C library behaviour these need:

- `CStr`: a C string ends at the first NUL.
- `SkipSpace`, `Token` and `Digits`: the leading whitespace `sscanf` and `atoi` skip, one `%s` field, and the digit run `isdigit` accepts.
- `PrefixCI` and `EqualCI`: `strncasecmp` and `strcasecmp`.
- `FirstOf`: `strchr` and `strpbrk`, with `FirstAfter` to name the match.
- `isspace` and `isdigit` in the C locale.
- `Atoi`: `atoi`.
- `ToSizeT`: the conversion of an `int` to a 64-bit `size_t`.

`streams.dfy` holds the connection classes; a `LineReader` is made by
`Rio_readinitb`.

Some behaviour of the code differs from what its comments suggest:

- The delimiter literal `" :/\r\n\0"` ends at its embedded NUL. So the end of
  the URL does not end the host name, and `"http://example.com"` is rejected
  with -1 (`Uri.BareHostRejected`), although the comment at
  lab10/proxy.c:151-156 promises a host name whenever the URL has no problem.
- `doit` forwards the request line exactly as read, followed by `"\r\n"`. It
  does not rewrite the line to a relative path and does not read or forward
  the client's headers, although the comment at lab10/proxy.c:100 speaks of
  reading the request line and headers.
- A client that closes before sending a line does not make `doit` stop
  cleanly. `method` is then read uninitialised, which is undefined behaviour,
  so the model requires a line with a method (and, after GET, a URL).
- The comment at lab10/proxy.c:205-207 says the log line carries the URI from
  the request, but the caller at lab10/proxy.c:83 passes the client's host
  name.

## Model

| member | source | states |
|---|---|---|
| Uri.ParseUri | lab10/proxy.c:158-200 | The buffers end up as `Apply(ParseUriSpec(uri), old contents)` and the return value is 0 on a parse and -1 otherwise. The digit-copying loop's invariant proves the port is the maximal digit run. |
| Uri.SchemeGate | lab10/proxy.c:165-168 | Without the case-insensitive `http://` prefix, the call returns -1, empties the host name and leaves the port and path buffers as they were. With the prefix, the case of its letters does not change the outcome. |
| Uri.NoHostDelimiterFails | lab10/proxy.c:171-174 | With the prefix, the parse fails with the buffers untouched exactly when no space, `:`, `/`, CR or LF occurs after index 7. |
| Uri.BareHostRejected | lab10/proxy.c:172-174 | `"http://example.com"` fails with -1, because the end of the string is not a host delimiter. |
| Uri.HostnameUpToFirstDelimiter | lab10/proxy.c:171-177 | On success the host name is the bytes from index 7 up to the first host delimiter. It contains no delimiter and is followed by one. |
| Uri.PortRule | lab10/proxy.c:180-187 | After a `:` the port is the longest run of digits that follows it, possibly empty. After any other delimiter the port is `"80"`. |
| Uri.PathRule | lab10/proxy.c:190-197 | The path is everything after the first `/` at or after index 7, copied verbatim. It is empty when there is no such `/`. |
| Uri.ParseBuiltUrl | lab10/proxy.c:158-200 | Parsing `http://host:port/path` returns exactly that host, port and path when the host has no delimiter and the port is digits. |
| Uri.ParseBuiltUrlDefaultPort | lab10/proxy.c:185-187 | Parsing `http://host/path` returns exactly that host, the port `"80"` and that path when the host has no delimiter. |
| Uri.ParseBuiltUrlNoPath | lab10/proxy.c:191-193 | Parsing `http://host:port` returns exactly that host and port and an empty path when the host has no delimiter and the port is digits. |
| CType.FirstAfter | lab10/proxy.c:172 | A search that passes no accepted byte before `k` and finds one at `k` returns `k`, as `strpbrk` and `strchr` do. |
| Uri.UriBuffers.constructor | lab10/proxy.c:98 | The three buffers start with the given contents. |
| CType.FirstOf | lab10/proxy.c:172 | The result, if any, is the first index at or after `from` holding an accepted byte. Without a result, no such byte exists. |
| CType.FirstOfSuffix | lab10/proxy.c:172 | The search depends only on the bytes from `from` onwards. |
| CType.CStr | lab10/proxy.c:140 | The C string is the longest NUL-free prefix of the buffer. |
| CType.SkipSpace | lab10/proxy.c:105 | The rest after the leading whitespace `%s` and `atoi` skip: a suffix of the input, preceded only by whitespace, and empty or starting with a non-space. |
| CType.Token | lab10/proxy.c:105 | What one `%s` stores: a prefix of the input holding no whitespace, followed by whitespace or by the end. |
| CType.Digits | lab10/proxy.c:182-183 | The run the `isdigit` walk copies: a prefix of the input made only of digits, followed by a non-digit or by the end. |
| CType.DigitsUnique | lab10/proxy.c:182-183 | A digit prefix followed by a non-digit, or by the end, is the digit run `isdigit` stops at. |
| CType.DecimalRoundTrip | lab10/proxy.c:143 | Reading back the decimal digits of `n` gives `n`. |
| CType.AtoiOfDecimal | lab10/proxy.c:143 | `atoi` of the decimal digits of `n`, followed by a non-digit or nothing, is `n`. |
| CType.ToSizeT | lab10/proxy.c:143 | `(size_t)` of an `int` agrees with it modulo 2^64 and keeps non-negative values. |
| Streams.LineReader.constructor | lab10/proxy.c:101 | `Rio_readinitb` starts the buffer before the connection's lines, all still to be read, each non-empty. |
| Streams.LineReader.ReadLine | lab10/proxy.c:139 | Returns the next line and consumes it, or returns the empty string at end of stream. |
| Streams.Sink.Write | lab10/proxy.c:145 | Appends the bytes to what the connection has sent. |
| Relay.RedirResponse | lab10/proxy.c:134-147 | Consumes every line. The client receives `Concat` of the lines, in order. The size cell ends as `Captured(lines, old size)`. The loop invariants tie each step to both functions. |
| Relay.RelayStep | lab10/proxy.c:139-146 | The step lemma the loop invariant of `RedirResponse` uses: one more line extends `Concat` by that line, and moves `Captured` to its value when it is a `Content-Length:` line. |
| Relay.ConcatAppend | lab10/proxy.c:145 | Relaying two runs of lines sends the first run's bytes, then the second's. |
| Relay.ConcatPlacesLine | lab10/proxy.c:145 | Line `i` appears verbatim in the client's bytes, at the offset the lines before it add up to. |
| Relay.CapturedWithoutHeader | lab10/proxy.c:140-144 | Without a `Content-Length:` line the caller's `size_t` is unchanged. |
| Relay.CapturedIsLastHeader | lab10/proxy.c:140-144 | The value left is the one parsed from the last `Content-Length:` line. |
| Relay.HeaderValueOfDecimal | lab10/proxy.c:140-143 | For n <= INT_MAX, the line `Content-Length: n` followed by NUL-free bytes that do not start with a digit is recognised, has defined behaviour, and yields `n`. For larger n `atoi` overflows, which is undefined. |
| Relay.HeaderOfValue | lab10/proxy.c:140-143 | For a line `Content-Length: tail` with `tail` NUL-free and `atoi(tail)` in 0..INT_MAX, the line is recognised, has defined behaviour, and its value is `atoi(tail)`, read after the first space. |
| CType.CStrOfNulFree | lab10/proxy.c:140 | A NUL-free buffer is its own C string. |
| CType.PrefixCIOfAppend | lab10/proxy.c:140 | A string followed by anything starts with that string, case-insensitively. |
| Relay.NotContentLength | lab10/proxy.c:140 | A line whose first byte is not `c` or `C` is not a `Content-Length:` line. |
| Relay.ReplyWithOneLength | lab10/proxy.c:139-146 | For a status line, one `Content-Length: n` line with n <= INT_MAX, the blank line and a one-line body, where neither the status line nor the body starts with NUL or `c`/`C`, the size noted is `n`. Every line is tested, body lines included, so a later line starting with `Content-Length:` would override n (`Relay.CapturedIsLastHeader`). |
| Request.Doit | lab10/proxy.c:101-123 | Consumes the request line. If the method is not GET in any case, nothing is dialed, sent or relayed, and `*size` is unchanged. For GET, it dials the host and port `parse_uri` leaves, sends the server the line as read followed by `"\r\n"`, relays the whole reply and leaves `Captured` in `*size`. |
| Request.Dialer.Open | lab10/proxy.c:118 | Records the host and port a connection was asked for. |
| Request.WordsAreWords | lab10/proxy.c:105 | Each word `sscanf`'s `%s` finds is a non-empty run of non-whitespace, NUL-free when the line is. |
| Request.WordOfToken | lab10/proxy.c:105 | The token after the leading whitespace is a word. |
| Request.WordsOfBlank | lab10/proxy.c:105 | Whitespace alone holds no word. |
| Request.WordsCons | lab10/proxy.c:105 | Whitespace, a word, then whitespace or nothing: that word comes first, followed by the words of the rest. |
| Request.TailWords | lab10/proxy.c:105 | After the method, ` URI SP VERSION CRLF` splits into exactly the URL and the version. |
| Request.RequestLineWords | lab10/proxy.c:105 | `METHOD SP URI SP VERSION CRLF` splits into exactly those three words, so method and URL are the line's first two fields. |
| LogEntry.OctetsValue | lab10/proxy.c:227-231 | Each of the four fields is a byte, and `a*2^24 + b*2^16 + c*2^8 + d` equals the address. |
| LogEntry.OctetsOfWire | lab10/proxy.c:227-231 | After `ntohl`, the four fields are the address bytes in the order they travel. |
| LogEntry.OctetsInjective | lab10/proxy.c:228-231 | Distinct addresses give distinct dotted quads. |

## Left out

- `main`, `thread`, `Malloc`/`Free` and the Pthreads calls are left out. They are process and concurrency plumbing.
- The `printf` diagnostics are left out.
- `time`, `localtime`, `strftime` and the `sprintf` of the log line are left out. They depend on the clock and C library formatting; only the dotted-quad fields are modelled.
- `Getnameinfo` is left out. It is a foreign resolver call.
- `size` is read uninitialised in `thread` when `doit` returns early or no `Content-Length:` line arrives. That is in `thread`, which is not modelled. `Doit` starts from whatever the cell holds.
- Socket set-up and the real `Open_clientfd` connection are left out. `Open_clientfd` is modelled only as its record in `Dialer`, and its failure, which exits the process, is not modelled.
- The origin server's reply is a parameter of `Doit`. How the reply depends on the request is outside the program.
- `Rio_readlineb` internals are abstracted to a sequence of non-empty lines, so the splitting of lines longer than `MAXLINE` and read errors are not modelled. `MAXLINE` is defined in `csapp.h`, which is not part of this model.
- Buffer sizes are not modelled. The strings are unbounded, so the overflows `MAXLINE`-sized buffers would allow are not captured.
- Request.Doit requires the request line to hold a method, and a URL after GET. Otherwise `sscanf` leaves `method` or `uri` uninitialised and the code reads them, which is undefined behaviour.
- Relay.RedirResponse requires every `Content-Length:` line to hold a space, with an `atoi` value that fits in an `int`. Otherwise `strchr` returns NULL or `atoi` overflows, both undefined behaviour.
- Uri.ParseUri requires a NUL-free URL. A C string cannot hold one.
- CType.Atoi reads leading whitespace, an optional sign and decimal digits. Out-of-range values are excluded by the precondition above.
- Characters are compared only within the C locale's ASCII classes (`isspace`, `isdigit`, `tolower`). Locale-dependent classification and the signed-`char` argument to `isdigit` are not modelled.
- `size_t` is taken to be 64 bits wide.
- What `doit`'s uninitialised `hostname`, `port` and `pathname` buffers hold before `parse_uri` is a parameter, `stale`. When the parse fails, `Open_clientfd` gets those contents.
- Closing descriptors is not modelled. `doit` never closes the origin server's connection `serverfd` (lab10/proxy.c:118-124), so each GET leaves one descriptor open.
- `version` is stored by `sscanf` but never used, so the model does not keep it.
