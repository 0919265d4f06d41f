/** Hashing an open file: the read loop around the streaming engine. */
module TlshShim {
  import opened Options
  import opened Seqs
  import opened Pearson
  import opened TlshStream
  import opened TlshCodec
  import opened TlshFinal

  const READ_SIZE := 65536

  /** How one read call answers: cut short after at most 1 + n bytes, interrupted, or failed. */
  datatype ReadEvent = Short(n: nat) | Interrupted | Failed

  /** What the loop may consume of the file. */
  function Budget(file: seq<bv8>, maxLen: nat): (data: seq<bv8>) {
    file[..Min(|file|, maxLen)]
  }

  /** What the first reads would hand over if nothing ran out: one read asks for READ_SIZE at most. */
  function Offered(schedule: seq<ReadEvent>): nat {
    if schedule == [] then 0
    else
      var last := schedule[|schedule| - 1];
      Offered(schedule[..|schedule| - 1]) + if last.Short? then Min(READ_SIZE, 1 + last.n) else 0
  }

  lemma {:induction false} OfferedGrows(schedule: seq<ReadEvent>, i: nat, j: nat)
    requires i <= j <= |schedule|
    ensures Offered(schedule[..i]) <= Offered(schedule[..j])
    decreases j
  {
    if i < j {
      OfferedGrows(schedule, i, j - 1);
      assert schedule[..j][..j - 1] == schedule[..j - 1];
    }
  }

  lemma {:induction false} OfferedNext(schedule: seq<ReadEvent>, i: nat)
    requires i < |schedule|
    ensures Offered(schedule[..i + 1])
         == Offered(schedule[..i]) + if schedule[i].Short? then Min(READ_SIZE, 1 + schedule[i].n) else 0
  {
    assert schedule[..i + 1][..i] == schedule[..i];
  }

  /** The reads before the i-th neither used up the limit nor met the end of the file. */
  ghost predicate Reaches(size: nat, maxLen: nat, schedule: seq<ReadEvent>, i: nat)
    requires i <= |schedule|
  {
    && Min(size, Offered(schedule[..i])) < maxLen
    && forall j :: 0 <= j < i && schedule[j].Short? ==> Offered(schedule[..j]) < size
  }

  /** Some failing read is reached. */
  ghost predicate ReadsFail(size: nat, maxLen: nat, schedule: seq<ReadEvent>) {
    exists i :: 0 <= i < |schedule| && schedule[i] == Failed && Reaches(size, maxLen, schedule, i)
  }

  /** Where the loop stands after its first reads, none of which failed. */
  ghost predicate Progress(size: nat, maxLen: nat, schedule: seq<ReadEvent>, next: nat, total: nat)
    requires next <= |schedule|
  {
    && (forall i :: 0 <= i < next ==> schedule[i] != Failed)
    && (forall j :: 0 <= j < next && schedule[j].Short? ==> Offered(schedule[..j]) < size)
    && (next < |schedule| ==> total == Min(Min(size, maxLen), Offered(schedule[..next])))
  }

  /** One read that hands something over. */
  lemma {:induction false} ReadAdvances(size: nat, maxLen: nat, schedule: seq<ReadEvent>, next: nat, total: nat, n: nat)
    requires next < |schedule| && Progress(size, maxLen, schedule, next, total) && total < maxLen
    requires schedule[next] != Failed && (schedule[next] == Interrupted ==> n == 0)
    requires schedule[next].Short? ==>
               n == Min(Min(Min(READ_SIZE, maxLen - total), size - total), 1 + schedule[next].n) && n > 0
    ensures Progress(size, maxLen, schedule, next + 1, total + n)
  {
    OfferedNext(schedule, next);
  }

  /** A loop that ended met no failing read, whether it ran into the limit or into the end. */
  lemma {:induction false} EndedUnharmed(size: nat, maxLen: nat, schedule: seq<ReadEvent>, next: nat, total: nat)
    requires next <= |schedule| && Progress(size, maxLen, schedule, next, total)
    requires total >= maxLen || next == |schedule| || (total >= size && schedule[next].Short?)
    ensures !ReadsFail(size, maxLen, schedule)
  {
    forall i | 0 <= i < |schedule| && schedule[i] == Failed ensures !Reaches(size, maxLen, schedule, i) {
      assert next <= i;
      OfferedGrows(schedule, next, i);
    }
  }

  /** What one read call answers: interrupted, failed, or some bytes, none of them at the end. */
  datatype Answer = Again | Error | Bytes(n: nat)

  /** One read of at most READ_SIZE bytes and never past the limit. A schedule that has run out
      answers every further read in full. */
  method Read(size: nat, schedule: seq<ReadEvent>, next: nat, total: nat, maxLen: nat)
    returns (answer: Answer, after: nat)
    requires next <= |schedule| && total <= size && total < maxLen
    requires Progress(size, maxLen, schedule, next, total)
    ensures next <= after <= |schedule|
    ensures answer == Error ==> ReadsFail(size, maxLen, schedule)
    ensures answer == Again ==> after > next && Progress(size, maxLen, schedule, after, total)
    ensures answer.Bytes? ==> total + answer.n <= Min(size, maxLen)
    ensures answer.Bytes? && answer.n > 0 ==> Progress(size, maxLen, schedule, after, total + answer.n)
    ensures answer == Bytes(0) ==> total == size && !ReadsFail(size, maxLen, schedule)
  {
    var want := READ_SIZE;
    if maxLen - total < want {
      want := maxLen - total;
    }
    var n := Min(want, size - total);
    if next == |schedule| {
      if n == 0 {
        EndedUnharmed(size, maxLen, schedule, next, total);
      }
      return Bytes(n), next;
    }
    match schedule[next] {
      case Interrupted =>
        ReadAdvances(size, maxLen, schedule, next, total, 0);
        answer := Again;
      case Failed =>
        assert Reaches(size, maxLen, schedule, next);
        answer := Error;
      case Short(k) =>
        n := Min(n, 1 + k);
        if n == 0 {
          EndedUnharmed(size, maxLen, schedule, next, total);
        } else {
          ReadAdvances(size, maxLen, schedule, next, total, n);
        }
        answer := Bytes(n);
    }
    after := next + 1;
  }

  /** The context has been fed the first `total` bytes, or has failed on the first of them. */
  ghost predicate FedSo(ctx: Context, file: seq<bv8>, total: nat, allocOk: bool)
    requires total <= |file|
    reads ctx, ctx.window, ctx.bucket
  {
    && ctx.Valid()
    && if allocOk then !ctx.allocFailed && ctx.fed == file[..total]
       else ctx.bucket == null && (total > 0 ==> ctx.allocFailed) && ctx.fed == []
  }

  method FeedPiece(ctx: Context, file: seq<bv8>, total: nat, n: nat, allocOk: bool)
    requires total + n <= |file| && total + n < U32 && n > 0 && FedSo(ctx, file, total, allocOk)
    modifies ctx, ctx.window, ctx.bucket
    ensures FedSo(ctx, file, total + n, allocOk)
    ensures ctx.window == old(ctx.window) && (ctx.bucket != old(ctx.bucket) ==> fresh(ctx.bucket))
  {
    ctx.Update(file[total..total + n], allocOk);
    assert file[..total] + file[total..total + n] == file[..total + n];
  }

  /** The read loop. */
  method FeedFile(ctx: Context, file: seq<bv8>, schedule: seq<ReadEvent>, allocOk: bool, maxLen: nat)
    returns (ok: bool, anyData: bool)
    requires Min(|file|, maxLen) < U32
    requires ctx.Valid() && ctx.bucket == null && ctx.fed == [] && !ctx.allocFailed
    modifies ctx, ctx.window
    ensures ctx.Valid() && (ctx.bucket != null ==> fresh(ctx.bucket))
    ensures ok <==> !ReadsFail(|file|, maxLen, schedule)
    ensures ok ==> (anyData <==> Budget(file, maxLen) != [])
    ensures ok && allocOk ==> !ctx.allocFailed && ctx.fed == Budget(file, maxLen)
    ensures ok && !allocOk && anyData ==> ctx.allocFailed
  {
    var total: nat, next: nat := 0, 0;
    anyData := false;
    while total < maxLen
      invariant next <= |schedule| && total <= |file| && total <= maxLen && (anyData <==> total > 0)
      invariant FedSo(ctx, file, total, allocOk) && ctx.window == old(ctx.window)
      invariant ctx.bucket != null ==> fresh(ctx.bucket)
      invariant Progress(|file|, maxLen, schedule, next, total)
      decreases |schedule| - next, Min(|file|, maxLen) - total
    {
      var answer: Answer;
      answer, next := Read(|file|, schedule, next, total, maxLen);
      if answer == Again {
        continue;
      }
      if answer == Error {
        return false, anyData;
      }
      if answer.n == 0 {
        assert file[..total] == Budget(file, maxLen);
        return true, anyData;
      }
      FeedPiece(ctx, file, total, answer.n, allocOk);
      total := total + answer.n;
      anyData := true;
    }
    EndedUnharmed(|file|, maxLen, schedule, next, total);
    assert file[..total] == Budget(file, maxLen);
    ok := true;
  }

  /** Reads the file in whatever pieces the operating system hands out. Codes: 0 hashed, -1 read
      error, -2 nothing to say about this content, -3 output buffer too small. */
  method HashFd(v: Table, file: seq<bv8>, seekOk: bool, schedule: seq<ReadEvent>, allocOk: bool,
                out: array<char>, maxLen: nat) returns (code: int)
    requires Min(|file|, maxLen) < U32
    modifies out
    ensures code in {0, -1, -2, -3}
    ensures code == -1 <==> !seekOk || ReadsFail(|file|, maxLen, schedule)
    ensures code != 0 ==> out[..] == old(out[..])
    ensures code != -1 && allocOk ==>
              var d := DigestOfData(v, Budget(file, maxLen));
              && (code == -2 <==> d.None?)
              && (code == -3 <==> d.Some? && out.Length <= HEXLEN)
              && (code == 0 ==> out[..HEXLEN] == Encode(d.value) && out[HEXLEN] == '\0')
    ensures code != -1 && !allocOk ==> code == -2
  {
    if !seekOk {
      return -1;
    }
    var ctx := new Context(v);
    var ok, anyData := FeedFile(ctx, file, schedule, allocOk, maxLen);
    if !ok {
      return -1;
    }
    if !anyData {
      return -2;
    }
    var digest := Final(ctx);
    if digest.None? {
      return -2;
    }
    if HEXLEN >= out.Length {
      return -3;
    }
    ToHex(digest.value, out);
    return 0;
  }
}
