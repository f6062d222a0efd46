/**
 * `doit`: the handling of one client connection. It reads the request line,
 * rejects every method but GET, splits the URL, connects to the origin
 * server, sends it the request line as read followed by "\r\n", and relays
 * the reply back to the client.
 */
module Request {
  import opened CType
  import opened Streams
  import opened Uri
  import opened Relay

  /** The only method served, compared case-insensitively. */
  const GetMethod: string := "GET"

  /**
   * The words `sscanf(buf, "%s %s %s", ...)` finds: maximal runs of
   * non-whitespace, in order (the call stores the first three).
   */
  function Words(s: string): (ws: seq<string>)
    decreases |s|
  {
    var t := SkipSpace(s);
    if t == [] then []
    else
      var w := Token(t);
      WordOfToken(s, t, w);
      [w] + Words(t[|w|..])
  }

  /** Every word is a non-empty run of non-whitespace, NUL-free when `s` is. */
  lemma {:induction false} WordsAreWords(s: string)
    ensures forall i :: 0 <= i < |Words(s)| ==> IsWord(Words(s)[i])
    ensures '\0' !in s ==> forall i :: 0 <= i < |Words(s)| ==> '\0' !in Words(s)[i]
    decreases |s|
  {
    var t := SkipSpace(s);
    if t != [] {
      var w := Token(t);
      WordOfToken(s, t, w);
      var rest := Words(t[|w|..]);
      WordsAreWords(t[|w|..]);
      assert Words(s) == [w] + rest;
      forall i | 0 < i < |Words(s)|
        ensures Words(s)[i] == rest[i - 1]
      {
      }
    }
  }

  /** A word: a non-empty run of bytes that are not whitespace. */
  predicate IsWord(w: string)
  {
    |w| > 0 && forall j :: 0 <= j < |w| ==> !IsSpace(w[j])
  }

  /** Nothing but whitespace. */
  predicate Blank(sp: string)
  {
    forall i :: 0 <= i < |sp| ==> IsSpace(sp[i])
  }

  /** The token after the leading whitespace is a word, and NUL-free with `s`. */
  lemma {:induction false} WordOfToken(s: string, t: string, w: string)
    requires t == SkipSpace(s) && t != [] && w == Token(t)
    ensures IsWord(w) && |w| <= |t|
    ensures '\0' !in s ==> '\0' !in t[|w|..] && '\0' !in w
  {
    assert w[0] == t[0];
    if '\0' !in s {
      assert forall c :: c in t ==> c in s;
      assert forall c :: c in w ==> c in t;
      assert forall c :: c in t[|w|..] ==> c in t;
    }
  }

  /** `strcasecmp(method, "GET") == 0` */
  predicate IsGet(name: string)
  {
    EqualCI(name, GetMethod)
  }

  /**
   * The request line gives `doit` defined behaviour: `sscanf` stores a
   * method, and after GET also a URL (both are read uninitialised otherwise).
   */
  predicate RequestDefined(line: string)
  {
    var ws := Words(CStr(line));
    |ws| >= 1 && (IsGet(ws[0]) ==> |ws| >= 2)
  }

  /** The host and port `Open_clientfd` is asked to connect to. */
  datatype Endpoint = Endpoint(hostname: string, port: string)

  /** `Open_clientfd`: the connections asked for so far, in order. */
  class Dialer {
    var dialed: seq<Endpoint>

    constructor ()
      ensures dialed == []
    {
      dialed := [];
    }

    method Open(hostname: string, port: string)
      modifies this
      ensures dialed == old(dialed) + [Endpoint(hostname, port)]
    {
      dialed := dialed + [Endpoint(hostname, port)];
    }
  }

  /**
   * `doit(clientfd, size)`. The client connection is `client` (read side) and
   * `clientOut` (write side); `dialer` records the call to `Open_clientfd`,
   * whose connection is `server` and `serverOut`; `stale` is what doit's
   * uninitialised host, port and path buffers hold before `parse_uri`.
   */
  method Doit(client: LineReader, clientOut: Sink, size: SizeCell, dialer: Dialer,
              server: LineReader, serverOut: Sink, stale: Target)
    requires client.Valid() && server.Valid()
    requires client != server && clientOut != serverOut
    requires client.pending != [] && RequestDefined(client.pending[0])
    requires IsGet(Words(CStr(client.pending[0]))[0]) ==> AllDefined(server.pending)
    modifies client, clientOut, size, dialer, server, serverOut
    ensures client.Valid() && client.pending == old(client.pending)[1..]
    ensures var line := old(client.pending)[0];
      var ws := Words(CStr(line));
      if !IsGet(ws[0]) then
        dialer.dialed == old(dialer.dialed) &&
        serverOut.written == old(serverOut.written) &&
        server.pending == old(server.pending) &&
        clientOut.written == old(clientOut.written) &&
        size.value == old(size.value)
      else
        var t := Apply(ParseUriSpec(ws[1]), stale);
        dialer.dialed == old(dialer.dialed) + [Endpoint(t.hostname, t.port)] &&
        serverOut.written == old(serverOut.written) + line + "\r\n" &&
        server.pending == [] &&
        clientOut.written == old(clientOut.written) + Concat(old(server.pending)) &&
        size.value == Captured(old(server.pending), old(size.value))
  {
    // One line from the client; only its first two words are used.
    var buf := client.ReadLine();
    var words := Words(CStr(buf));
    WordsAreWords(CStr(buf));
    var requestMethod := words[0];
    if !EqualCI(requestMethod, GetMethod) {
      return;
    }

    // Only GET gets past the gate: split its URL into the buffers.
    var uri := words[1];
    var target := new UriBuffers(stale);
    var _ := ParseUri(uri, target);

    // Dial the host and port left in the buffers, forward the line, relay the reply.
    dialer.Open(target.hostname, target.port);
    serverOut.Write(buf);
    serverOut.Write("\r\n");
    RedirResponse(server, clientOut, size);
  }

  // ---------------------------------------------------------------------
  // Properties of the request line

  /** Whitespace alone holds no word. */
  lemma {:induction false} WordsOfBlank(sp: string)
    requires Blank(sp)
    ensures Words(sp) == []
  {
    assert SpanEnd(sp, 0, IsSpace) == |sp|;
  }

  /** Whitespace, a word, then whitespace or nothing: that word comes first. */
  lemma {:induction false} WordsCons(sp: string, w: string, rest: string)
    requires Blank(sp) && IsWord(w)
    requires rest == [] || IsSpace(rest[0])
    ensures Words(sp + w + rest) == [w] + Words(rest)
  {
    var s := sp + w + rest;
    assert s[|sp|] == w[0];
    assert SpanEnd(s, 0, IsSpace) == |sp|;
    var t := SkipSpace(s);
    assert t == w + rest;
    assert t[|w|..] == rest;
    assert SpanEnd(t, 0, NotSpace) == |w| by {
      assert forall i :: 0 <= i < |w| ==> t[i] == w[i];
      assert |w| < |t| ==> t[|w|] == rest[0];
    }
  }

  /**
   * A request line `METHOD SP URI SP VERSION CRLF` yields exactly its three
   * words, whatever their case.
   */
  lemma {:induction false} RequestLineWords(m: string, u: string, v: string)
    requires IsWord(m) && IsWord(u) && IsWord(v)
    ensures Words(m + " " + u + " " + v + "\r\n") == [m, u, v]
  {
    var r2 := " " + u + (" " + v + "\r\n");
    TailWords(u, v);
    RequestLineShape(m, u, v);
    WordsCons("", m, r2);
  }

  /** The part after the method: two words, each after one space, then CRLF. */
  lemma {:induction false} TailWords(u: string, v: string)
    requires IsWord(u) && IsWord(v)
    ensures Words(" " + u + (" " + v + "\r\n")) == [u, v]
  {
    var crlf := "\r\n";
    var r3 := " " + v + crlf;
    WordsOfBlank(crlf);
    WordsCons(" ", v, crlf);
    assert Words(r3) == [v];
    WordsCons(" ", u, r3);
    AppendAssoc(" ", v, crlf);
  }

  /** The request line regrouped as the method followed by the rest. */
  lemma {:induction false} RequestLineShape(m: string, u: string, v: string)
    ensures m + " " + u + " " + v + "\r\n" == "" + m + (" " + u + (" " + v + "\r\n"))
  {
    var crlf := "\r\n";
    assert "" + m == m;
    AppendAssoc(m + " " + u + " ", v, crlf);
    AppendAssoc(m + " " + u, " ", v + crlf);
    AppendAssoc(m + " ", u, " " + (v + crlf));
    AppendAssoc(m, " ", u + (" " + (v + crlf)));
    AppendAssoc(" ", u, " " + (v + crlf));
  }
}
