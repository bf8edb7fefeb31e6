/** The pure half of `process()`: the gateway answers with one line of
    `|`-delimited fields, which `process()` splits and reads by position.
    Field 0 is the response code, fields 2 to 6 the reason code, reason text,
    approval code, AVS response and transaction id, and field 39 the CCV
    response; the transaction counts as processed exactly when the response
    code is `1`. A line with 39 fields or fewer makes the read of field 39
    raise `IndexError`. Sending the request is not modelled. */
module Gateway {
  import opened Wrappers

  /** The delimiter `process()` splits on, `x_delim_char` of the configuration. */
  const Delimiter: char := '|'

  /** Python's `s.split(sep)` for a one-character separator: the pieces
      between separators, at least one, possibly empty. */
  function Split(s: string, sep: char): (parts: seq<string>)
    ensures |parts| >= 1
    ensures forall i :: 0 <= i < |parts| ==> sep !in parts[i]
    decreases |s|
  {
    if |s| == 0 then [""]
    else
      var rest := Split(s[1..], sep);
      if s[0] == sep then [""] + rest
      else [[s[0]] + rest[0]] + rest[1..]
  }

  /** `sep.join(parts)`. */
  function Join(parts: seq<string>, sep: char): string
    requires |parts| >= 1
    decreases |parts|
  {
    if |parts| == 1 then parts[0] else parts[0] + [sep] + Join(parts[1..], sep)
  }

  /** Joining the pieces gives back the line. */
  lemma {:induction false} SplitJoin(s: string, sep: char)
    ensures Join(Split(s, sep), sep) == s
    decreases |s|
  {
    if |s| > 0 {
      var rest := Split(s[1..], sep);
      SplitJoin(s[1..], sep);
      if s[0] == sep {
        assert Split(s, sep)[1..] == rest;
      } else {
        var parts := Split(s, sep);
        if |rest| == 1 {
          assert parts == [[s[0]] + rest[0]];
        } else {
          assert parts[1..] == rest[1..];
          assert Join(rest, sep) == rest[0] + [sep] + Join(rest[1..], sep);
        }
      }
    }
  }

  /** Splitting a join of separator-free pieces gives back the pieces. */
  lemma {:induction false} JoinSplit(parts: seq<string>, sep: char)
    requires |parts| >= 1
    requires forall i :: 0 <= i < |parts| ==> sep !in parts[i]
    ensures Split(Join(parts, sep), sep) == parts
    decreases |parts|
  {
    if |parts| == 1 {
      PieceSplit(parts[0], sep);
    } else {
      var tail := Join(parts[1..], sep);
      JoinSplit(parts[1..], sep);
      PrefixSplit(parts[0], tail, sep);
      assert [parts[0]] + parts[1..] == parts;
    }
  }

  /** A separator-free string is a single piece. */
  lemma {:induction false} PieceSplit(s: string, sep: char)
    requires sep !in s
    ensures Split(s, sep) == [s]
    decreases |s|
  {
    if |s| > 0 {
      forall k | 0 <= k < |s[1..]| ensures s[1..][k] != sep {
        assert s[1..][k] == s[k + 1];
      }
      PieceSplit(s[1..], sep);
      assert [s[0]] + s[1..] == s;
    }
  }

  /** A separator-free piece, the separator, and a tail: the piece comes off
      first and the tail splits as before. */
  lemma {:induction false} PrefixSplit(piece: string, tail: string, sep: char)
    requires sep !in piece
    ensures Split(piece + [sep] + tail, sep) == [piece] + Split(tail, sep)
    decreases |piece|
  {
    var s := piece + [sep] + tail;
    if |piece| == 0 {
      assert s == [sep] + tail;
      assert s[1..] == tail;
    } else {
      assert s[1..] == piece[1..] + [sep] + tail;
      forall k | 0 <= k < |piece[1..]| ensures piece[1..][k] != sep {
        assert piece[1..][k] == piece[k + 1];
      }
      PrefixSplit(piece[1..], tail, sep);
      assert [piece[0]] + piece[1..] == piece;
    }
  }

  /** The fields of the reply that `process()` stores on the processor. */
  datatype Response = Response(
    responseCode: string,
    reasonCode: string,
    reasonText: string,
    approvalCode: string,
    avsResponse: string,
    transId: string,
    ccvResponse: string)

  /** Reading a field the reply does not have raises `IndexError`. */
  datatype ParseError = MissingField(index: nat)

  /** The reply read by position, as `process()` does; field 39 is the last
      one read, so a reply that has it has all the others. */
  function ParseResponse(line: string): (r: Result<Response, ParseError>)
    ensures r.Success? <==> |Split(line, Delimiter)| > 39
    ensures r.Success? ==> var f := Split(line, Delimiter);
              r.value == Response(f[0], f[2], f[3], f[4], f[5], f[6], f[39])
    ensures r.Failure? ==> var n := |Split(line, Delimiter)|;
              && r.error.index in ReadIndices && r.error.index >= n
              && forall j :: j in ReadIndices && j < r.error.index ==> j < n
  {
    var f := Split(line, Delimiter);
    if |f| <= 39 then Failure(MissingField(FirstMissing(|f|)))
    else Success(Response(f[0], f[2], f[3], f[4], f[5], f[6], f[39]))
  }

  /** The positions `process()` reads: field 0, fields 2 to 6, and field 39. */
  const ReadIndices: set<nat> := {0, 2, 3, 4, 5, 6, 39}

  /** The first position `process()` reads that a reply of `n` fields lacks,
      for `1 <= n <= 39`. */
  function FirstMissing(n: nat): (i: nat)
    requires 1 <= n
    ensures n <= 39 ==> i >= n && i in ReadIndices
    ensures forall j :: j in ReadIndices && j < i ==> j < n
  {
    if n <= 2 then 2 else if n <= 6 then n else 39
  }

  /** `process()`'s verdict on a reply: processed exactly when the response
      code is `1`; a reply too short to read raises. */
  function Processed(line: string): (r: Result<bool, ParseError>)
    ensures r.Success? <==> ParseResponse(line).Success?
    ensures r.Success? ==> (r.value <==> Split(line, Delimiter)[0] == "1")
  {
    match ParseResponse(line)
    case Failure(e) => Failure(e)
    case Success(resp) => Success(resp.responseCode == "1")
  }

  /** A reply assembled from 40 or more delimiter-free fields is read back
      field by field. */
  lemma ParseJoined(fields: seq<string>)
    requires |fields| > 39
    requires forall i :: 0 <= i < |fields| ==> Delimiter !in fields[i]
    ensures ParseResponse(Join(fields, Delimiter))
            == Success(Response(fields[0], fields[2], fields[3], fields[4], fields[5], fields[6], fields[39]))
    ensures Processed(Join(fields, Delimiter)) == Success(fields[0] == "1")
  {
    JoinSplit(fields, Delimiter);
  }
}
