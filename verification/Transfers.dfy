/** The file transfer of lab2/rfss.c: uploadfile on one side, the first read of the connection thread and
    getupload on the other, under any schedule of partial, empty and failing reads and writes. */
module Transfers {
  import opened Protocol
  import opened Messages

  const BUFFER := 1400

  /** How the system answers send, write, read and recv, call after call. A call on n bytes gets the
      next answer of the script, cut down to n, or -1 for any error; once the script has ended, calls
      are served in full. */
  function Answer(script: seq<int>, call: nat, n: nat): (a: int)
    ensures -1 <= a <= n && (call >= |script| ==> a == n)
  {
    if call >= |script| then n
    else if script[call] < 0 then -1
    else if script[call] < n then script[call] else n
  }

  /** Answers that are left in the script. */
  function Budget(script: seq<int>, call: nat): nat {
    if call < |script| then |script| - call else 0
  }

  function Less(a: nat, b: nat): nat {
    if a < b then a else b
  }

  // ---------- One chunk ----------

  /** What is sent: a list of bytes, or something from in front of the buffer. */
  datatype Emission = Stray | Done(bytes: seq<Byte>)

  function Prefixed(first: seq<Byte>, rest: Emission): Emission {
    match rest
    case Stray => Stray
    case Done(bytes) => Done(first + bytes)
  }

  /** The inner loop of uploadfile: left bytes are still to be sent, from position p of the buffer on. The
      result of write is added to the pointer even when it is -1. */
  function Emit(buff: seq<Byte>, p: int, left: nat, script: seq<int>, call: nat): Emission
    requires p + left <= |buff|
    decreases left, Budget(script, call)
  {
    if left == 0 then Done([])
    else if p < 0 then Stray
    else
      var w := Answer(script, call, left);
      if w <= 0 then Emit(buff, p + w, left, script, call + 1)
      else Prefixed(buff[p..p + w], Emit(buff, p + w, left - w, script, call + 1))
  }

  /** The number of the call after those that send a chunk. */
  function Calls(left: nat, script: seq<int>, call: nat): nat
    decreases left, Budget(script, call)
  {
    if left == 0 then call
    else
      var w := Answer(script, call, left);
      Calls(if w > 0 then left - w else left, script, call + 1)
  }

  /** How often write fails before the chunk is complete. */
  function Slips(left: nat, script: seq<int>, call: nat): nat
    decreases left, Budget(script, call)
  {
    if left == 0 then 0
    else
      var w := Answer(script, call, left);
      (if w < 0 then 1 else 0) + Slips(if w > 0 then left - w else left, script, call + 1)
  }

  lemma {:induction false} NoSlipsNoHarm(buff: seq<Byte>, p: nat, left: nat, script: seq<int>, call: nat)
    requires p + left <= |buff| && Slips(left, script, call) == 0
    ensures Emit(buff, p, left, script, call) == Done(buff[p..p + left])
    decreases left, Budget(script, call)
  {
    if left > 0 {
      var w := Answer(script, call, left);
      NoSlipsNoHarm(buff, p + w, left - w, script, call + 1);
      assert buff[p..p + w] + buff[p + w..p + left] == buff[p..p + left];
    }
  }

  /** Every failure moves the last byte to be sent one further to the front. */
  ghost predicate Shifted(buff: seq<Byte>, end: int, left: nat, slips: nat, out: seq<Byte>) {
    |out| == left && (left > 0 ==> 0 <= end - 1 - slips < |buff| && out[left - 1] == buff[end - 1 - slips])
  }

  lemma {:induction false} LastByteShifted(buff: seq<Byte>, p: int, left: nat, script: seq<int>, call: nat)
    requires p + left <= |buff| && Emit(buff, p, left, script, call).Done?
    ensures Shifted(buff, p + left, left, Slips(left, script, call), Emit(buff, p, left, script, call).bytes)
    decreases left, Budget(script, call)
  {
    if left > 0 {
      var w := Answer(script, call, left);
      LastByteShifted(buff, p + w, if w > 0 then left - w else left, script, call + 1);
    }
  }

  ghost predicate Intact(buff: seq<Byte>, script: seq<int>, call: nat) {
    Emit(buff, 0, |buff|, script, call) == Done(buff)
  }

  /** A chunk that shows any failure: its last byte occurs nowhere else. */
  function Telltale(n: nat): (buff: seq<Byte>)
    requires n > 0
    ensures |buff| == n && buff[n - 1] == 1 && forall i :: 0 <= i < n - 1 ==> buff[i] == 0
  {
    seq(n - 1, _ => 0) + [1]
  }

  lemma TelltaleTells(n: nat, script: seq<int>, call: nat)
    requires n > 0 && Slips(n, script, call) > 0
    ensures !Intact(Telltale(n), script, call)
  {
    if Emit(Telltale(n), 0, n, script, call).Done? {
      LastByteShifted(Telltale(n), 0, n, script, call);
    }
  }

  /** Every chunk of n bytes is sent byte by byte, exactly when write does not fail before the chunk is
      complete. Answers of 0 do no harm. */
  lemma ChunksIntactExactly(n: nat, script: seq<int>, call: nat)
    ensures (forall buff :: |buff| == n ==> Intact(buff, script, call)) <==> Slips(n, script, call) == 0
  {
    if Slips(n, script, call) == 0 {
      forall buff: seq<Byte> | |buff| == n ensures Intact(buff, script, call) {
        NoSlipsNoHarm(buff, 0, n, script, call);
        assert buff[0..n] == buff;
      }
    } else {
      TelltaleTells(n, script, call);
      assert |Telltale(n)| == n;
    }
  }

  /** Half of the chunk is sent, then write fails once: the first byte is sent twice, the second never. */
  lemma OneFailureRepeatsAByte()
    ensures Emit([1, 2], 0, 2, [1, -1, 1], 0) == Done([1, 1])
  {
  }

  // ---------- A whole file ----------

  /** read answers 0 only at the end of the file. */
  ghost predicate ReadsOn(script: seq<int>) {
    forall i :: 0 <= i < |script| ==> script[i] != 0
  }

  /** What becomes of data, read in portions of at most max bytes. A failing read is just repeated. */
  ghost function EmitFile(data: seq<Byte>, max: nat, inputs: seq<int>, readCall: nat, outputs: seq<int>,
        writeCall: nat):
      Emission
    requires max > 0 && ReadsOn(inputs)
    decreases |data|, Budget(inputs, readCall)
  {
    var n := Answer(inputs, readCall, Less(|data|, max));
    if n == 0 then Done([])
    else if n < 0 then EmitFile(data, max, inputs, readCall + 1, outputs, writeCall)
    else
      match Emit(data[..n], 0, n, outputs, writeCall)
      case Stray => Stray
      case Done(bytes) =>
        Prefixed(bytes, EmitFile(data[n..], max, inputs, readCall + 1, outputs, Calls(n, outputs, writeCall)))
  }

  /** How often write fails before the file is complete. */
  ghost function FileSlips(length: nat, max: nat, inputs: seq<int>, readCall: nat, outputs: seq<int>,
        writeCall: nat): nat
    requires max > 0 && ReadsOn(inputs)
    decreases length, Budget(inputs, readCall)
  {
    var n := Answer(inputs, readCall, Less(length, max));
    if n == 0 then 0
    else if n < 0 then FileSlips(length, max, inputs, readCall + 1, outputs, writeCall)
    else
      Slips(n, outputs, writeCall)
      + FileSlips(length - n, max, inputs, readCall + 1, outputs, Calls(n, outputs, writeCall))
  }

  lemma {:induction false} EmitFileLength(data: seq<Byte>, max: nat, inputs: seq<int>, readCall: nat,
        outputs: seq<int>, writeCall: nat)
    requires max > 0 && ReadsOn(inputs)
    ensures var r := EmitFile(data, max, inputs, readCall, outputs, writeCall); r.Done? ==> |r.bytes| == |data|
    decreases |data|, Budget(inputs, readCall)
  {
    var n := Answer(inputs, readCall, Less(|data|, max));
    if n < 0 {
      EmitFileLength(data, max, inputs, readCall + 1, outputs, writeCall);
    } else if n > 0 && Emit(data[..n], 0, n, outputs, writeCall).Done? {
      LastByteShifted(data[..n], 0, n, outputs, writeCall);
      EmitFileLength(data[n..], max, inputs, readCall + 1, outputs, Calls(n, outputs, writeCall));
    }
  }

  lemma {:induction false} NoSlipsInFile(data: seq<Byte>, max: nat, inputs: seq<int>, readCall: nat,
        outputs: seq<int>, writeCall: nat)
    requires max > 0 && ReadsOn(inputs) && FileSlips(|data|, max, inputs, readCall, outputs, writeCall) == 0
    ensures EmitFile(data, max, inputs, readCall, outputs, writeCall) == Done(data)
    decreases |data|, Budget(inputs, readCall)
  {
    var n := Answer(inputs, readCall, Less(|data|, max));
    if n < 0 {
      NoSlipsInFile(data, max, inputs, readCall + 1, outputs, writeCall);
    } else if n > 0 {
      NoSlipsNoHarm(data[..n], 0, n, outputs, writeCall);
      assert data[..n][0..n] == data[..n] && data[..n] + data[n..] == data;
      NoSlipsInFile(data[n..], max, inputs, readCall + 1, outputs, Calls(n, outputs, writeCall));
    }
  }

  /** Data whose first portion, or whose rest, comes out wrong comes out wrong. */
  lemma WrongPortion(head: seq<Byte>, tail: seq<Byte>, max: nat, inputs: seq<int>, readCall: nat, outputs: seq<int>,
        writeCall: nat)
    requires max > 0 && ReadsOn(inputs) && head != []
    requires Answer(inputs, readCall, Less(|head + tail|, max)) == |head|
    requires !Intact(head, outputs, writeCall)
             || (Intact(head, outputs, writeCall)
                 && EmitFile(tail, max, inputs, readCall + 1, outputs, Calls(|head|, outputs, writeCall)) != Done(tail))
    ensures EmitFile(head + tail, max, inputs, readCall, outputs, writeCall) != Done(head + tail)
  {
    var data, n := head + tail, |head|;
    assert data[..n] == head && data[n..] == tail;
    if Emit(head, 0, n, outputs, writeCall).Done? {
      var bytes := Emit(head, 0, n, outputs, writeCall).bytes;
      LastByteShifted(head, 0, n, outputs, writeCall);
      match EmitFile(tail, max, inputs, readCall + 1, outputs, Calls(n, outputs, writeCall))
      case Stray =>
      case Done(rest) =>
        assert (bytes + rest)[..n] == bytes && (bytes + rest)[n..] == rest;
    }
  }

  /** A file that shows the failure. */
  lemma {:induction false} SlippingFile(length: nat, max: nat, inputs: seq<int>, readCall: nat, outputs: seq<int>,
        writeCall: nat)
    returns (data: seq<Byte>)
    requires max > 0 && ReadsOn(inputs) && FileSlips(length, max, inputs, readCall, outputs, writeCall) > 0
    ensures |data| == length && EmitFile(data, max, inputs, readCall, outputs, writeCall) != Done(data)
    decreases length, Budget(inputs, readCall)
  {
    var n := Answer(inputs, readCall, Less(length, max));
    if n < 0 {
      data := SlippingFile(length, max, inputs, readCall + 1, outputs, writeCall);
    } else if Slips(n, outputs, writeCall) > 0 {
      TelltaleTells(n, outputs, writeCall);
      data := Telltale(n) + seq(length - n, _ => 0);
      WrongPortion(Telltale(n), seq(length - n, _ => 0), max, inputs, readCall, outputs, writeCall);
    } else {
      var head: seq<Byte> := seq(n, _ => 0);
      var tail := SlippingFile(length - n, max, inputs, readCall + 1, outputs, Calls(n, outputs, writeCall));
      NoSlipsNoHarm(head, 0, n, outputs, writeCall);
      assert head[0..n] == head;
      data := head + tail;
      WrongPortion(head, tail, max, inputs, readCall, outputs, writeCall);
    }
  }

  ghost predicate FileIntact(data: seq<Byte>, max: nat, inputs: seq<int>, outputs: seq<int>, writeCall: nat)
    requires max > 0 && ReadsOn(inputs)
  {
    EmitFile(data, max, inputs, 0, outputs, writeCall) == Done(data)
  }

  /** Every file of a given length is sent byte by byte, exactly when write never fails before the last
      byte. Nothing depends on how reads and writes are split up, or on failing reads. */
  lemma FilesIntactExactly(length: nat, max: nat, inputs: seq<int>, outputs: seq<int>, writeCall: nat)
    requires max > 0 && ReadsOn(inputs)
    ensures (forall data :: |data| == length ==> FileIntact(data, max, inputs, outputs, writeCall)) <==>
            FileSlips(length, max, inputs, 0, outputs, writeCall) == 0
  {
    if FileSlips(length, max, inputs, 0, outputs, writeCall) == 0 {
      forall data: seq<Byte> | |data| == length ensures FileIntact(data, max, inputs, outputs, writeCall) {
        NoSlipsInFile(data, max, inputs, 0, outputs, writeCall);
      }
    } else {
      var data := SlippingFile(length, max, inputs, 0, outputs, writeCall);
      assert !FileIntact(data, max, inputs, outputs, writeCall);
    }
  }

  // ---------- The sender ----------

  class File {
    const data: seq<Byte>
    const script: seq<int>
    var pos: nat
    var calls: nat

    ghost predicate Valid()
      reads this
    {
      pos <= |data| && ReadsOn(script)
    }

    constructor (data: seq<Byte>, script: seq<int>)
      requires ReadsOn(script)
      ensures Valid() && this.data == data && this.script == script && pos == 0 && calls == 0
    {
      this.data, this.script, pos, calls := data, script, 0, 0;
    }

    method Read(buff: array<Byte>, max: nat) returns (n: int)
      requires Valid() && 0 < max <= buff.Length
      modifies this`pos, this`calls, buff
      ensures Valid() && n == Answer(script, old(calls), Less(|data| - old(pos), max)) && calls == old(calls) + 1
      ensures pos == old(pos) + if n > 0 then n else 0
      ensures n > 0 ==> buff[..n] == data[old(pos)..pos]
      ensures n == 0 <==> old(pos) == |data| && n >= 0
    {
      n := Answer(script, calls, Less(|data| - pos, max));
      calls := calls + 1;
      if n > 0 {
        forall i | 0 <= i < n {
          buff[i] := data[pos + i];
        }
        pos := pos + n;
      }
    }
  }

  class Socket {
    var sent: seq<Byte>
    const script: seq<int>
    var calls: nat

    constructor (script: seq<int>)
      ensures this.script == script && sent == [] && calls == 0
    {
      this.script, sent, calls := script, [], 0;
    }

    /** send and write. */
    method Write(buff: array<Byte>, p: nat, n: nat) returns (w: int)
      requires p + n <= buff.Length
      modifies this`sent, this`calls
      ensures w == Answer(script, old(calls), n) && calls == old(calls) + 1
      ensures sent == if w > 0 then old(sent) + buff[p..p + w] else old(sent)
    {
      w := Answer(script, calls, n);
      calls := calls + 1;
      if w > 0 {
        sent := sent + buff[p..p + w];
      }
    }
  }

  lemma PrefixedTwice(a: seq<Byte>, b: seq<Byte>, r: Emission)
    ensures Prefixed(a, Prefixed(b, r)) == Prefixed(a + b, r)
  {
  }

  lemma {:induction false} BytesBeyondDoNotMatter(buff: seq<Byte>, p: int, left: nat, n: nat, script: seq<int>,
        call: nat)
    requires p + left <= n <= |buff|
    ensures Emit(buff[..n], p, left, script, call) == Emit(buff, p, left, script, call)
    decreases left, Budget(script, call)
  {
    if left > 0 && p >= 0 {
      var w := Answer(script, call, left);
      assert w > 0 ==> buff[..n][p..p + w] == buff[p..p + w];
      BytesBeyondDoNotMatter(buff, p + w, if w > 0 then left - w else left, n, script, call + 1);
    }
  }

  /** What has been sent, and the number of the next call, when the inner loop is through. */
  datatype Outcome = Astray | Complete(sent: seq<Byte>, call: nat)

  /** The inner loop as it runs, with what has been sent before. */
  ghost function Finish(sent: seq<Byte>, buff: seq<Byte>, p: int, left: nat, script: seq<int>, call: nat): Outcome
    requires p + left <= |buff|
    decreases left, Budget(script, call)
  {
    if left == 0 then Complete(sent, call)
    else if p < 0 then Astray
    else
      var w := Answer(script, call, left);
      if w > 0 then Finish(sent + buff[p..p + w], buff, p + w, left - w, script, call + 1)
      else Finish(sent, buff, p + w, left, script, call + 1)
  }

  lemma {:induction false} OutcomeIsEmission(sent: seq<Byte>, buff: seq<Byte>, p: int, left: nat, script: seq<int>,
        call: nat)
    requires p + left <= |buff|
    ensures Finish(sent, buff, p, left, script, call) ==
            match Emit(buff, p, left, script, call)
            case Stray => Astray
            case Done(bytes) => Complete(sent + bytes, Calls(left, script, call))
    decreases left, Budget(script, call)
  {
    if left == 0 {
      assert sent + [] == sent;
    } else if p >= 0 {
      var w := Answer(script, call, left);
      if w > 0 {
        var piece, rest := buff[p..p + w], Emit(buff, p + w, left - w, script, call + 1);
        OutcomeIsEmission(sent + piece, buff, p + w, left - w, script, call + 1);
        assert rest.Done? ==> sent + piece + rest.bytes == sent + (piece + rest.bytes);
      } else {
        OutcomeIsEmission(sent, buff, p + w, left, script, call + 1);
      }
    }
  }

  /** The inner loop. It stops, and reports so, where the source would send what lies in front of the
      buffer. */
  method WriteAll(buff: array<Byte>, n: nat, socket: Socket) returns (inside: bool)
    requires n <= buff.Length
    modifies socket`sent, socket`calls
    ensures match Emit(buff[..n], 0, n, socket.script, old(socket.calls))
            case Stray => !inside
            case Done(bytes) =>
              && inside && socket.sent == old(socket.sent) + bytes
              && socket.calls == Calls(n, socket.script, old(socket.calls))
  {
    ghost var chunk := buff[..];
    ghost var outcome := Finish(socket.sent, chunk, 0, n, socket.script, socket.calls);
    BytesBeyondDoNotMatter(chunk, 0, n, n, socket.script, socket.calls);
    OutcomeIsEmission(socket.sent, chunk, 0, n, socket.script, socket.calls);
    inside := true;
    var bytesRead, p: int := n, 0;
    while bytesRead > 0 && inside
      invariant 0 <= bytesRead && p + bytesRead <= n && (!inside ==> outcome.Astray?)
      invariant inside ==> outcome == Finish(socket.sent, chunk, p, bytesRead, socket.script, socket.calls)
      decreases bytesRead, Budget(socket.script, socket.calls), inside
    {
      if p < 0 {
        inside := false;
      } else {
        var bytesWritten := socket.Write(buff, p, bytesRead);
        if bytesWritten > 0 {
          bytesRead := bytesRead - bytesWritten;
        }
        p := p + bytesWritten;
      }
    }
  }

  /** The loop over the file as it runs, with what has been sent before. */
  ghost function FinishFile(sent: seq<Byte>, data: seq<Byte>, max: nat, inputs: seq<int>, readCall: nat,
        outputs: seq<int>, writeCall: nat):
      Emission
    requires max > 0 && ReadsOn(inputs)
    decreases |data|, Budget(inputs, readCall)
  {
    var n := Answer(inputs, readCall, Less(|data|, max));
    if n == 0 then Done(sent)
    else if n < 0 then FinishFile(sent, data, max, inputs, readCall + 1, outputs, writeCall)
    else
      match Emit(data[..n], 0, n, outputs, writeCall)
      case Stray => Stray
      case Done(bytes) =>
        FinishFile(sent + bytes, data[n..], max, inputs, readCall + 1, outputs, Calls(n, outputs, writeCall))
  }

  lemma {:induction false} FinishIsEmission(sent: seq<Byte>, data: seq<Byte>, max: nat, inputs: seq<int>,
        readCall: nat, outputs: seq<int>, writeCall: nat)
    requires max > 0 && ReadsOn(inputs)
    ensures FinishFile(sent, data, max, inputs, readCall, outputs, writeCall)
            == Prefixed(sent, EmitFile(data, max, inputs, readCall, outputs, writeCall))
    decreases |data|, Budget(inputs, readCall)
  {
    var n := Answer(inputs, readCall, Less(|data|, max));
    if n == 0 {
      assert sent + [] == sent;
    } else if n < 0 {
      FinishIsEmission(sent, data, max, inputs, readCall + 1, outputs, writeCall);
    } else if Emit(data[..n], 0, n, outputs, writeCall).Done? {
      var bytes, call := Emit(data[..n], 0, n, outputs, writeCall).bytes, Calls(n, outputs, writeCall);
      FinishIsEmission(sent + bytes, data[n..], max, inputs, readCall + 1, outputs, call);
      PrefixedTwice(sent, bytes, EmitFile(data[n..], max, inputs, readCall + 1, outputs, call));
    }
  }

  /** uploadfile, from the header on. The header is sent with one call, whose result is not looked at. */
  method SendFile(header: array<Byte>, file: File, size: nat, socket: Socket) returns (inside: bool, total: nat)
    requires file.Valid() && file.pos == 0 && file.calls == 0 && 0 < size <= BUFFER
    modifies file`pos, file`calls, socket`sent, socket`calls
    ensures var w := Answer(socket.script, old(socket.calls), header.Length);
            match EmitFile(file.data, size, file.script, 0, socket.script, old(socket.calls) + 1)
            case Stray => !inside
            case Done(bytes) =>
              && inside && total == |bytes|
              && socket.sent == old(socket.sent) + (if w > 0 then header[..w] else []) + bytes
  {
    var _ := socket.Write(header, 0, header.Length);
    ghost var finish := FinishFile(socket.sent, file.data, size, file.script, 0, socket.script, socket.calls);
    FinishIsEmission(socket.sent, file.data, size, file.script, 0, socket.script, socket.calls);
    EmitFileLength(file.data, size, file.script, 0, socket.script, socket.calls);
    var buff := new Byte[BUFFER](_ => 0);
    total := 0;
    assert file.data[0..] == file.data;
    while true
      invariant file.Valid() && total == file.pos
      invariant finish == FinishFile(socket.sent, file.data[file.pos..], size, file.script, file.calls,
                                     socket.script, socket.calls)
      decreases |file.data| - file.pos, Budget(file.script, file.calls)
    {
      ghost var rest := file.data[file.pos..];
      var bytesRead := file.Read(buff, size);
      if bytesRead == 0 {
        break;
      }
      if bytesRead > 0 {
        assert buff[..bytesRead] == rest[..bytesRead] && file.data[file.pos..] == rest[bytesRead..];
        inside := WriteAll(buff, bytesRead, socket);
        if !inside {
          return;
        }
        total := total + bytesRead;
      }
    }
    inside := true;
  }

  // ---------- The receiver ----------

  /** The number of bytes that the receiving loop takes from a stream of the given length before it is
      satisfied, or finds nothing more and waits. */
  function Taken(length: nat, taken: nat, size: int, max: nat, script: seq<int>, call: nat): (t: nat)
    requires 0 < max && taken <= length
    ensures taken <= t <= length && (t >= size || t == length)
    ensures taken < size ==> t < size + max
    ensures taken >= size ==> t == taken
    decreases length - taken, Budget(script, call)
  {
    if taken >= size || taken == length then taken
    else
      var n := Answer(script, call, Less(length - taken, max));
      Taken(length, if n > 0 then taken + n else taken, size, max, script, call + 1)
  }

  /** getupload: recv may answer with any part of what is there, with nothing, or with an error. When the
      stream holds less than the announced size, the source waits for ever; remain is then positive. */
  method ReceiveFile(stream: seq<Byte>, size: int, max: nat, script: seq<int>)
    returns (written: seq<Byte>, remain: int)
    requires 0 < max <= BUFFER
    ensures written == stream[..Taken(|stream|, 0, size, max, script, 0)]
    ensures remain == size - |written| && (remain > 0 ==> written == stream)
    ensures |stream| == size ==> written == stream && remain == 0
  {
    written := [];
    remain := size;
    var calls := 0;
    while remain > 0 && |written| < |stream|
      invariant |written| <= |stream| && written == stream[..|written|] && remain == size - |written|
      invariant Taken(|stream|, |written|, size, max, script, calls) == Taken(|stream|, 0, size, max, script, 0)
      decreases |stream| - |written|, Budget(script, calls)
    {
      var len := Answer(script, calls, Less(|stream| - |written|, max));
      if len > 0 {
        remain := remain - len;
        written := written + stream[|written|..|written| + len];
      }
      calls := calls + 1;
    }
  }

  lemma {:induction false} CreepingUp(length: nat, taken: nat, size: nat, max: nat, call: nat, script: seq<int>)
    requires 2 <= max && taken < size < length
    requires script == seq(size - 1, _ => 1) + [2] && call == taken
    ensures Taken(length, taken, size, max, script, call) == size + 1
    decreases size - taken
  {
    if taken < size - 1 {
      assert script[call] == 1;
      CreepingUp(length, taken + 1, size, max, call + 1, script);
    } else {
      assert script[call] == 2;
    }
  }

  /** The receiver writes exactly the announced number of bytes under every schedule exactly when the
      stream holds them and either nothing follows, or the file is empty, or it reads single bytes. */
  lemma ExactUnderEverySchedule(length: nat, size: nat, max: nat)
    requires 0 < max
    ensures (forall script :: Taken(length, 0, size, max, script, 0) == size) <==>
            size <= length && (length == size || size == 0 || max == 1)
  {
    if length > size && size > 0 && max > 1 {
      CreepingUp(length, 0, size, max, 0, seq(size - 1, _ => 1) + [2]);
    }
    if size > length {
      assert Taken(length, 0, size, max, [], 0) < size;
    }
  }

  // ---------- The first read ----------

  /** Texts that can be sent as C strings. */
  predicate IsText(s: string) {
    forall i :: 0 <= i < |s| ==> 0 < s[i] as int < 256
  }

  function Encode(s: string): (bs: seq<Byte>)
    requires IsText(s)
    ensures |bs| == |s| && forall i :: 0 <= i < |s| ==> bs[i] == s[i] as int
  {
    seq(|s|, i requires 0 <= i < |s| => s[i] as int)
  }

  /** The C string at the start of a buffer: it ends at the first zero. */
  function CString(bs: seq<Byte>): (s: string)
    ensures |s| <= |bs| && (forall i :: 0 <= i < |s| ==> s[i] as int == bs[i] && bs[i] != 0)
    ensures |s| < |bs| ==> bs[|s|] == 0
  {
    if bs == [] || bs[0] == 0 then []
    else
      var rest := CString(bs[1..]);
      assert forall i :: 0 < i < |rest| + 1 ==> bs[i] == bs[1..][i - 1];
      [bs[0] as char] + rest
  }

  lemma PrefixIsCString(s: string, tail: seq<Byte>, k: nat)
    requires IsText(s) && k <= |s|
    ensures CString((Encode(s) + tail)[..k]) == s[..k]
  {
  }

  lemma HeaderIsText(keyword: string, size: nat, name: string)
    requires IsText(keyword) && IsText(name)
    ensures IsText(UploadHeader(keyword, size, name))
  {
  }

  /** Keywords and names that arrive as one word each. */
  predicate IsWord(s: string) {
    IsText(s) && Clean(s)
  }

  function Header(keyword: string, size: nat, name: string): (bs: seq<Byte>)
    requires IsText(keyword) && IsText(name)
    ensures |bs| == |UploadHeader(keyword, size, name)|
  {
    HeaderIsText(keyword, size, name);
    Encode(UploadHeader(keyword, size, name))
  }

  /** The first read took k bytes of the stream and makes of them an upload of the given name and size;
      the receiving loop then writes just the data and ends. */
  ghost predicate Arrives(keyword: string, name: string, data: seq<Byte>, stream: seq<Byte>, k: nat, max: nat,
        script: seq<int>)
    requires 0 < max && k <= |stream|
  {
    var words := Tokens(CString(stream[..k]));
    && |words| >= 3 && words[0] == keyword && Atoi(words[1]) == |data| && words[2] == name
    && |data| <= |stream| - k
    && stream[k..][..Taken(|stream| - k, 0, |data|, max, script, 0)] == data
  }

  /** The message alone takes as many bytes as the header has. */
  lemma ArrivalNeedsHeader(keyword: string, name: string, data: seq<Byte>, stream: seq<Byte>, k: nat, max: nat,
        script: seq<int>)
    requires 0 < max && k <= |stream| && Arrives(keyword, name, data, stream, k, max, script)
    ensures |UploadHeader(keyword, |data|, name)| <= k
  {
    var words := Tokens(CString(stream[..k]));
    TokensNeedRoom(CString(stream[..k]));
    AtoiNeedsRoom(words[1], |data|);
    RoomForThree(words);
  }

  lemma HeaderArrives(keyword: string, name: string, data: seq<Byte>, max: nat, script: seq<int>)
    requires 0 < max && IsWord(keyword) && IsWord(name)
    ensures var h := Header(keyword, |data|, name); Arrives(keyword, name, data, h + data, |h|, max, script)
  {
    var text, h := UploadHeader(keyword, |data|, name), Header(keyword, |data|, name);
    HeaderIsText(keyword, |data|, name);
    UploadHeaderRoundTrip(keyword, |data|, name);
    PrefixIsCString(text, data, |h|);
    assert text[..|h|] == text && (h + data)[|h|..] == data;
    assert data[..|data|] == data;
  }

  lemma WordsOfHeader(keyword: string, size: nat, name: string)
    requires Clean(keyword) && Clean(name)
    ensures Tokens(UploadHeader(keyword, size, name)) == [keyword, Dec(size), name]
  {
    var rest := " " + name;
    DecIsClean(size);
    SpaceBeforeToken(name, "");
    assert rest == " " + name + "" && Tokens("") == [];
    TokensOfMessage(keyword, Dec(size), rest, [name]);
    SameText(keyword, Dec(size), rest);
    assert UploadHeader(keyword, size, name) == keyword + " " + Dec(size) + rest;
    assert [keyword, Dec(size)] + [name] == [keyword, Dec(size), name];
  }

  lemma ShortRead(keyword: string, name: string, size: nat, k: nat)
    requires Clean(keyword) && Clean(name)
    requires k < |UploadHeader(keyword, size, name)|
    ensures var words := Tokens(UploadHeader(keyword, size, name)[..k]); |words| < 3 || words[2] < name
  {
    var text := UploadHeader(keyword, size, name);
    var words := Tokens(text[..k]);
    WordsOfHeader(keyword, size, name);
    PrefixTokens(text, k);
    TokensNeedRoom(text[..k]);
    if |words| == 3 && words[2] == name {
      RoomForThree(words);
    }
  }

  /** A first read that is too short misses the name or the end of it; one that is too long leaves fewer
      bytes than announced; the right one lets name and data arrive, under every schedule of further
      reads. */
  lemma FirstReadDecides(keyword: string, name: string, data: seq<Byte>, k: nat, max: nat, script: seq<int>)
    requires 0 < max && IsWord(keyword) && IsWord(name) && k <= |Header(keyword, |data|, name)| + |data|
    ensures var h := Header(keyword, |data|, name);
            var words := Tokens(CString((h + data)[..k]));
            && (k < |h| ==> |words| < 3 || words[2] < name)
            && (k > |h| ==> |h + data| - k < |data|)
            && (Arrives(keyword, name, data, h + data, k, max, script) <==> k == |h|)
  {
    var text, h := UploadHeader(keyword, |data|, name), Header(keyword, |data|, name);
    HeaderIsText(keyword, |data|, name);
    if k < |h| {
      ShortRead(keyword, name, |data|, k);
      PrefixIsCString(text, data, k);
    } else if k == |h| {
      HeaderArrives(keyword, name, data, max, script);
    }
  }

  /** The receiver's handling of an upload: the first read took the message, size and name are its
      second and third word, the rest of the stream is the file. */
  method ReceiveUpload(message: seq<Byte>, stream: seq<Byte>, max: nat, script: seq<int>)
    returns (name: Option<string>, written: seq<Byte>, remain: int)
    requires 0 < max <= BUFFER && |Tokens(CString(message))| >= 2
    ensures var words := Tokens(CString(message));
            && name == (if |words| >= 3 then Some(words[2]) else None)
            && written == stream[..Taken(|stream|, 0, Atoi(words[1]), max, script, 0)]
            && remain == Atoi(words[1]) - |written| && (remain > 0 ==> written == stream)
  {
    var strtok := new Tokenizer(CString(message));
    var _ := strtok.Next();
    var size := strtok.Next();
    name := strtok.Next();
    written, remain := ReceiveFile(stream, Atoi(size.value), max, script);
  }

  // ---------- Sender and receiver together ----------

  /** All that uploadfile sends: what one call took of the header, and the file. */
  ghost function Sent(header: seq<Byte>, data: seq<Byte>, size: nat, inputs: seq<int>, outputs: seq<int>): Emission
    requires size > 0 && ReadsOn(inputs)
  {
    var w := Answer(outputs, 0, |header|);
    Prefixed(if w > 0 then header[..w] else [], EmitFile(data, size, inputs, 0, outputs, 1))
  }

  ghost predicate UploadArrives(keyword: string, name: string, data: seq<Byte>, size: nat, inputs: seq<int>,
        outputs: seq<int>, k: nat, max: nat, script: seq<int>)
    requires size > 0 && 0 < max && ReadsOn(inputs) && IsText(keyword) && IsText(name)
  {
    var r := Sent(Header(keyword, |data|, name), data, size, inputs, outputs);
    r.Done? && k <= |r.bytes| && Arrives(keyword, name, data, r.bytes, k, max, script)
  }

  /** An upload arrives exactly when its name is one word, the one call took the whole header, the first
      read took just the header, and the file was sent byte by byte. The schedule of further reads does
      not matter. */
  lemma ArrivesExactly(keyword: string, name: string, data: seq<Byte>, size: nat, inputs: seq<int>, outputs: seq<int>,
                       k: nat, max: nat, script: seq<int>)
    requires size > 0 && 0 < max && ReadsOn(inputs) && IsWord(keyword) && IsText(name)
    ensures var h := Header(keyword, |data|, name);
            UploadArrives(keyword, name, data, size, inputs, outputs, k, max, script) <==>
            && Clean(name) && Answer(outputs, 0, |h|) == |h| && k == |h|
            && FileIntact(data, size, inputs, outputs, 1)
  {
    var h := Header(keyword, |data|, name);
    var w, out := Answer(outputs, 0, |h|), EmitFile(data, size, inputs, 0, outputs, 1);
    EmitFileLength(data, size, inputs, 0, outputs, 1);
    if UploadArrives(keyword, name, data, size, inputs, outputs, k, max, script) {
      var stream := Sent(h, data, size, inputs, outputs).bytes;
      ArrivalNeedsHeader(keyword, name, data, stream, k, max, script);
      assert w == |h| && k == |h| && stream == h[..w] + out.bytes;
      assert stream[k..] == out.bytes && out.bytes[..|data|] == out.bytes;
    }
    if Clean(name) && w == |h| && k == |h| && FileIntact(data, size, inputs, outputs, 1) {
      assert h[..w] == h && Sent(h, data, size, inputs, outputs) == Done(h + data);
      HeaderArrives(keyword, name, data, max, script);
    }
  }

  /** The same for all files of one length: a condition on the name and the schedules alone. */
  lemma UploadsArriveExactly(keyword: string, name: string, length: nat, size: nat, inputs: seq<int>, outputs: seq<int>,
                             k: nat, max: nat, script: seq<int>)
    requires size > 0 && 0 < max && ReadsOn(inputs) && IsWord(keyword) && IsText(name)
    ensures var h := Header(keyword, length, name);
            (forall data :: |data| == length ==>
               UploadArrives(keyword, name, data, size, inputs, outputs, k, max, script)) <==>
            && Clean(name) && Answer(outputs, 0, |h|) == |h| && k == |h|
            && FileSlips(length, size, inputs, 0, outputs, 1) == 0
  {
    var h := Header(keyword, length, name);
    forall data: seq<Byte> | |data| == length
      ensures UploadArrives(keyword, name, data, size, inputs, outputs, k, max, script) <==>
              && Clean(name) && Answer(outputs, 0, |h|) == |h| && k == |h|
              && FileIntact(data, size, inputs, outputs, 1)
    {
      ArrivesExactly(keyword, name, data, size, inputs, outputs, k, max, script);
    }
    FilesIntactExactly(length, size, inputs, outputs, 1);
    var zeros: seq<Byte> := seq(length, _ => 0);
    assert |zeros| == length;
  }

  lemma {:induction false} AnswersInFull(length: nat, max: nat, call: nat)
    requires max > 0 && call > 0
    ensures FileSlips(length, max, [], call - 1, [1], call) == 0
    decreases length
  {
    var n := Less(length, max);
    if n > 0 {
      assert Slips(n, [1], call) == Slips(0, [1], call + 1) == 0;
      assert Calls(n, [1], call) == Calls(0, [1], call + 1) == call + 1;
      AnswersInFull(length - n, max, call + 1);
    }
  }

  /** When the call for the header takes one byte only, the stream is that byte and the file, and no
      upload arrives, whatever the first read takes. */
  lemma ShortFirstSend(keyword: string, name: string, data: seq<Byte>, size: nat, k: nat, max: nat, script: seq<int>)
    requires size > 0 && 0 < max && IsWord(keyword) && IsText(name)
    ensures var h := Header(keyword, |data|, name);
            Sent(h, data, size, [], [1]) == Done(h[..1] + data)
    ensures !UploadArrives(keyword, name, data, size, [], [1], k, max, script)
  {
    AnswersInFull(|data|, size, 1);
    NoSlipsInFile(data, size, [], 0, [1], 1);
    ArrivesExactly(keyword, name, data, size, [], [1], k, max, script);
  }

  lemma UploadKeyword()
    ensures IsWord(UPLOADTOU)
  {
  }

  /** The connection thread and getupload: did this file arrive under this name? */
  method ReceiveConnection(stream: seq<Byte>, k: nat, name: string, data: seq<Byte>, max: nat, script: seq<int>)
    returns (arrived: bool)
    requires k <= |stream| && 0 < max <= BUFFER
    ensures arrived <==> Arrives(UPLOADTOU, name, data, stream, k, max, script)
    ensures var words := Tokens(CString(stream[..k]));
            arrived ==> |words| >= 3 && words[0] == "UPLOADTOU" && Atoi(words[1]) == |data| && words[2] == name
  {
    var words := Tokens(CString(stream[..k]));
    if |words| < 2 || words[0] != UPLOADTOU {
      return false;
    }
    var nameThere, written, remain := ReceiveUpload(stream[..k], stream[k..], max, script);
    arrived := nameThere == Some(name) && written == data && remain == 0;
  }

  /** uploadfile: header and file are sent; None when something else would be sent as well. */
  method SendUpload(name: string, data: seq<Byte>, size: nat, inputs: seq<int>, outputs: seq<int>)
    returns (stream: Option<seq<Byte>>)
    requires IsText(name) && ReadsOn(inputs) && 0 < size <= BUFFER
    ensures stream == match Sent(Header(UPLOADTOU, |data|, name), data, size, inputs, outputs)
                      case Stray => None
                      case Done(bytes) => Some(bytes)
  {
    var bytes := Header(UPLOADTOU, |data|, name);
    var header := new Byte[|bytes|](i requires 0 <= i < |bytes| => bytes[i]);
    assert header[..] == bytes;
    var file := new File(data, inputs);
    var socket := new Socket(outputs);
    var inside, total := SendFile(header, file, size, socket);
    ghost var w := Answer(outputs, 0, |bytes|);
    ghost var first: seq<Byte> := if w > 0 then bytes[..w] else [];
    assert w > 0 ==> header[..w] == bytes[..w];
    assert [] + first == first;
    stream := if inside then Some(socket.sent) else None;
  }

  /** Both programs, one after the other: the sender runs to its end, the receiver's first read gets what
      firstRead says. The file arrives exactly under the four conditions, for every name and all data. */
  method Transfer(name: string, data: seq<Byte>, sizeHere: nat, sizeThere: nat,
                  inputs: seq<int>, outputs: seq<int>, firstRead: nat, script: seq<int>)
    returns (arrived: bool)
    requires IsText(name) && ReadsOn(inputs)
    requires 0 < sizeHere <= 1400 && 0 < sizeThere <= 1400
    ensures var h := Header(UPLOADTOU, |data|, name);
            arrived <==>
            && Clean(name) && Answer(outputs, 0, |h|) == |h| && Less(firstRead, |h| + |data|) == |h|
            && FileIntact(data, sizeHere, inputs, outputs, 1)
  {
    UploadKeyword();
    var stream := SendUpload(name, data, sizeHere, inputs, outputs);
    if stream.None? {
      return false;
    }
    var k := Less(firstRead, |stream.value|);
    arrived := ReceiveConnection(stream.value, k, name, data, sizeThere, script);
    ghost var h := Header(UPLOADTOU, |data|, name);
    ArrivesExactly(UPLOADTOU, name, data, sizeHere, inputs, outputs, k, sizeThere, script);
    EmitFileLength(data, sizeHere, inputs, 0, outputs, 1);
    assert Answer(outputs, 0, |h|) == |h| ==> |stream.value| == |h| + |data|;
  }
}
