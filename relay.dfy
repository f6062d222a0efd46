/**
 * `redir_response`: relaying the origin server's reply to the client line by
 * line until a read returns nothing, and noting the value of every
 * `Content-Length:` line in the caller's `size_t`.
 */
module Relay {
  import opened CType
  import opened Streams

  /** The field name, compared case-insensitively on its 15 bytes. */
  const ContentLengthField: string := "Content-Length:"

  /** `strncasecmp(buf, "Content-Length:", 15) == 0` on the line's C string. */
  predicate IsContentLength(line: string)
  {
    PrefixCI(CStr(line), ContentLengthField)
  }

  /** `strchr(s, ' ') + 1`: what follows the first space, or NULL. */
  function AfterSpace(s: string): Option<string>
  {
    match FirstOf(s, 0, " ")
    case None => None
    case Some(j) => Some(s[j + 1..])
  }

  /**
   * The line has defined behaviour: a `Content-Length:` line holds a space
   * for `strchr` to find and `atoi` of what follows it fits in an `int`.
   */
  predicate HeaderDefined(line: string)
  {
    IsContentLength(line) ==>
      AfterSpace(CStr(line)).Some? && AtoiDefined(AfterSpace(CStr(line)).value)
  }

  predicate AllDefined(lines: seq<string>)
  {
    forall i :: 0 <= i < |lines| ==> HeaderDefined(lines[i])
  }

  /** `(size_t) atoi(strchr(buf, ' ') + 1)` */
  function HeaderValue(line: string): SizeT
    requires IsContentLength(line) && HeaderDefined(line)
  {
    ToSizeT(Atoi(AfterSpace(CStr(line)).value))
  }

  /** The bytes of the lines, in order. */
  function Concat(lines: seq<string>): string
  {
    if lines == [] then [] else Concat(lines[..|lines| - 1]) + lines[|lines| - 1]
  }

  /** The `size_t` after the lines have been relayed, starting from `size`. */
  function Captured(lines: seq<string>, size: SizeT): SizeT
    requires AllDefined(lines)
  {
    if lines == [] then size
    else
      var last := lines[|lines| - 1];
      if IsContentLength(last) then HeaderValue(last)
      else Captured(lines[..|lines| - 1], size)
  }

  /** `redir_response(rp, clientfd, res_size)` */
  method RedirResponse(rp: LineReader, client: Sink, resSize: SizeCell)
    requires rp.Valid() && AllDefined(rp.pending)
    modifies rp, client, resSize
    ensures rp.Valid() && rp.pending == []
    ensures client.written == old(client.written) + Concat(old(rp.pending))
    ensures resSize.value == Captured(old(rp.pending), old(resSize.value))
  {
    ghost var lines := rp.pending;
    ghost var k := 0;
    while true
      invariant rp.Valid() && 0 <= k <= |lines|
      invariant rp.pending == lines[k..]
      invariant client.written == old(client.written) + Concat(lines[..k])
      invariant AllDefined(lines) && AllDefined(lines[..k])
      invariant resSize.value == Captured(lines[..k], old(resSize.value))
      decreases |rp.pending|
    {
      var buf := rp.ReadLine();
      if |buf| == 0 {
        break;
      }
      assert buf == lines[k];
      RelayStep(lines, k, old(resSize.value));
      if IsContentLength(buf) {
        var sizestr := AfterSpace(CStr(buf));
        resSize.value := ToSizeT(Atoi(sizestr.value));
      }
      client.Write(buf);
      assert client.written == old(client.written) + Concat(lines[..k + 1]) by {
        AppendAssoc(old(client.written), Concat(lines[..k]), buf);
      }
      k := k + 1;
    }
    assert lines[..k] == lines;
  }

  lemma {:induction false} AppendAssoc(a: string, b: string, c: string)
    ensures (a + b) + c == a + (b + c)
  {
  }

  /** What relaying line `k` adds to the bytes written and to the size noted. */
  lemma {:induction false} RelayStep(lines: seq<string>, k: nat, size: SizeT)
    requires AllDefined(lines) && k < |lines|
    ensures AllDefined(lines[..k]) && AllDefined(lines[..k + 1])
    ensures Concat(lines[..k + 1]) == Concat(lines[..k]) + lines[k]
    ensures Captured(lines[..k + 1], size) ==
      if IsContentLength(lines[k]) then HeaderValue(lines[k]) else Captured(lines[..k], size)
  {
    assert lines[..k + 1][..k] == lines[..k];
  }

  // ---------------------------------------------------------------------
  // Properties of the relay

  /** Relaying two runs of lines writes the first run's bytes, then the second's. */
  lemma {:induction false} ConcatAppend(a: seq<string>, b: seq<string>)
    ensures Concat(a + b) == Concat(a) + Concat(b)
    decreases |b|
  {
    if b == [] {
      assert a + b == a;
    } else {
      var b' := b[..|b| - 1];
      assert (a + b)[..|a + b| - 1] == a + b';
      assert (a + b)[|a + b| - 1] == b[|b| - 1];
      ConcatAppend(a, b');
      AppendAssoc(Concat(a), Concat(b'), b[|b| - 1]);
    }
  }

  /** Line `i` lands at the offset the lines before it add up to. */
  lemma {:induction false} ConcatPlacesLine(lines: seq<string>, i: nat)
    requires i < |lines|
    ensures var off := |Concat(lines[..i])|;
      off + |lines[i]| <= |Concat(lines)| &&
      Concat(lines)[off..off + |lines[i]|] == lines[i]
  {
    assert lines == lines[..i] + [lines[i]] + lines[i + 1..];
    ConcatAppend(lines[..i] + [lines[i]], lines[i + 1..]);
    ConcatAppend(lines[..i], [lines[i]]);
    assert [lines[i]][..0] == [];
  }

  /** Without a `Content-Length:` line the caller's `size_t` is left as it was. */
  lemma {:induction false} CapturedWithoutHeader(lines: seq<string>, size: SizeT)
    requires AllDefined(lines)
    requires forall i :: 0 <= i < |lines| ==> !IsContentLength(lines[i])
    ensures Captured(lines, size) == size
    decreases |lines|
  {
    if lines != [] {
      CapturedWithoutHeader(lines[..|lines| - 1], size);
    }
  }

  /** With such lines, the last one decides the value. */
  lemma {:induction false} CapturedIsLastHeader(lines: seq<string>, size: SizeT, i: nat)
    requires AllDefined(lines)
    requires i < |lines| && IsContentLength(lines[i])
    requires forall j :: i < j < |lines| ==> !IsContentLength(lines[j])
    ensures Captured(lines, size) == HeaderValue(lines[i])
    decreases |lines|
  {
    if i < |lines| - 1 {
      CapturedIsLastHeader(lines[..|lines| - 1], size, i);
    }
  }

  /** A header line `Content-Length: n` with `n` in range is captured as `n`. */
  lemma {:induction false} HeaderValueOfDecimal(n: nat, rest: string)
    requires n <= IntMax
    requires '\0' !in rest && (rest == [] || !IsDigit(rest[0]))
    ensures var line := ContentLengthField + " " + Decimal(n) + rest;
      IsContentLength(line) && HeaderDefined(line) && HeaderValue(line) == n
  {
    var d := Decimal(n);
    var tail := d + rest;
    var line := ContentLengthField + " " + d + rest;
    assert line == ContentLengthField + (" " + tail) by {
      AppendAssoc(ContentLengthField + " ", d, rest);
      AppendAssoc(ContentLengthField, " ", tail);
    }
    assert '\0' !in tail by {
      assert forall i :: 0 <= i < |d| ==> d[i] != '\0';
    }
    AtoiOfDecimal(n, rest);
    HeaderOfValue(line, tail);
  }

  /** The line `Content-Length: tail` has its value read from `tail`. */
  lemma {:induction false} HeaderOfValue(line: string, tail: string)
    requires line == ContentLengthField + (" " + tail)
    requires '\0' !in tail && 0 <= Atoi(tail) <= IntMax
    ensures IsContentLength(line) && HeaderDefined(line) && HeaderValue(line) == Atoi(tail)
  {
    assert '\0' !in ContentLengthField;
    CStrOfNulFree(line);
    PrefixCIOfAppend(ContentLengthField, " " + tail);
    assert AfterSpace(line) == Some(tail) by {
      forall i | 0 <= i < |ContentLengthField|
        ensures line[i] !in " "
      {
        assert line[i] == ContentLengthField[i];
      }
      assert line[|ContentLengthField|] in " ";
      FirstAfter(line, 0, |ContentLengthField|, " ");
      assert line[|ContentLengthField| + 1..] == tail;
    }
  }

  /** A line whose first byte is not a `c` in either case is not a `Content-Length:` line. */
  lemma {:induction false} NotContentLength(line: string)
    requires |line| > 0 && line[0] != '\0' && Lower(line[0]) != 'c'
    ensures !IsContentLength(line) && HeaderDefined(line)
  {
    assert CStr(line) == [line[0]] + CStr(line[1..]);
  }

  /**
   * A reply made of a status line, one `Content-Length: n` line with
   * n <= INT_MAX, the blank line and a one-line body, where neither the status
   * line nor the body starts with NUL or a `c` in either case: the size noted
   * is n. Body lines are tested like header lines, so a body line starting
   * with `Content-Length:` would replace n (`CapturedIsLastHeader`).
   */
  lemma {:induction false} ReplyWithOneLength(status: string, n: nat, body: string, size: SizeT)
    requires n <= IntMax
    requires |status| > 0 && status[0] != '\0' && Lower(status[0]) != 'c'
    requires |body| > 0 && body[0] != '\0' && Lower(body[0]) != 'c'
    ensures var reply := [status, ContentLengthField + " " + Decimal(n) + "\r\n", "\r\n", body];
      AllDefined(reply) && Captured(reply, size) == n
  {
    var header := ContentLengthField + " " + Decimal(n) + "\r\n";
    var reply := [status, header, "\r\n", body];
    HeaderValueOfDecimal(n, "\r\n");
    NotContentLength(status);
    NotContentLength("\r\n");
    NotContentLength(body);
    assert AllDefined(reply) by {
      forall i | 0 <= i < |reply|
        ensures HeaderDefined(reply[i])
      {
        if i == 0 {
          assert reply[i] == status;
        } else if i == 1 {
          assert reply[i] == header;
        } else if i == 2 {
          assert reply[i] == "\r\n";
        } else {
          assert reply[i] == body;
        }
      }
    }
    assert forall j :: 1 < j < |reply| ==> !IsContentLength(reply[j]) by {
      forall j | 1 < j < |reply|
        ensures !IsContentLength(reply[j])
      {
        if j == 2 {
          assert reply[j] == "\r\n";
        } else {
          assert reply[j] == body;
        }
      }
    }
    CapturedIsLastHeader(reply, size, 1);
  }
}
