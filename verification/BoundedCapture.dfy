/** The bounded capture of a command's output (`_run_bounded`): two readers fill two buffers under
    one shared limit, in any interleaving. */
module BoundedCapture {

  type Byte = bv8

  datatype Who = Stdout | Stderr

  /** A reader: what its pipe still holds, the chunk it has taken but not yet stored, what it has
      dealt with, and its buffer. */
  datatype Reader = Reader(unread: seq<Byte>, chunk: seq<Byte>, dealt: seq<Byte>, kept: seq<Byte>, done: bool)

  /** One turn of the scheduler; a read delivers at most `size` bytes. */
  datatype Turn = Turn(who: Who, size: nat)

  /** One of each, for the two pipes. */
  datatype Both<T> = Both(stdout: T, stderr: T) {
    function Of(w: Who): T { if w.Stdout? then stdout else stderr }
    function With(w: Who, x: T): Both<T> { if w.Stdout? then Both(x, stderr) else Both(stdout, x) }
  }

  const CHUNK := 4096

  /** The pipe is accounted for, in order, and the buffer is the beginning of it. */
  ghost predicate Sound(r: Reader, stream: seq<Byte>) {
    && stream == r.dealt + r.chunk + r.unread && r.kept <= r.dealt
    && (r.done ==> r.chunk == [] && r.unread == [])
  }

  /** Some byte that was dealt with is missing from the buffer. */
  ghost predicate Dropping(r: Reader) { |r.kept| < |r.dealt| }

  class Capture {
    const limit: nat
    ghost const streams: Both<seq<Byte>>
    var readers: Both<Reader>
    var total: nat
    var overflow: bool

    constructor (limit: nat, stdout: seq<Byte>, stderr: seq<Byte>)
      ensures Valid() && this.limit == limit && streams == Both(stdout, stderr)
    {
      this.limit := limit;
      streams := Both(stdout, stderr);
      readers := Both(Reader(stdout, [], [], [], false), Reader(stderr, [], [], [], false));
      total, overflow := 0, false;
    }

    ghost predicate Valid()
      reads this
    {
      && Sound(readers.stdout, streams.stdout) && Sound(readers.stderr, streams.stderr)
      && (Dropping(readers.stdout) || Dropping(readers.stderr) ==> total == limit)
      && total == |readers.stdout.kept| + |readers.stderr.kept| <= limit
      && (overflow <==> Dropping(readers.stdout) || Dropping(readers.stderr))
    }

    ghost predicate Finished()
      reads this
    {
      readers.stdout.done && readers.stderr.done
    }

    /** One turn of a reader: a blocking read, or, under the lock, storing what was read. */
    method Step(t: Turn)
      requires Valid()
      modifies this
      ensures Valid()
      ensures forall w: Who :: old(readers).Of(w).kept <= readers.Of(w).kept
      ensures old(overflow) ==> overflow
      ensures forall w: Who :: old(readers).Of(w).done ==> readers.Of(w) == old(readers).Of(w)
    {
      hide Sound, Dropping;
      var r := readers.Of(t.who);
      ghost var stream := streams.Of(t.who);
      SoundMeans(r, stream);
      if r.done { return; }
      if r.chunk == [] {
        if r.unread == [] {
          EndSound(r, stream);
          readers := readers.With(t.who, r.(done := true));
        } else {
          var n := if t.size == 0 then 1 else if t.size > CHUNK then CHUNK else t.size;
          n := if n > |r.unread| then |r.unread| else n;
          ReadSound(r, stream, n);
          readers := readers.With(t.who, r.(chunk := r.unread[..n], unread := r.unread[n..]));
        }
      } else {
        var remaining := limit - total;
        var count := if |r.chunk| > remaining then remaining else |r.chunk|;
        StoreSound(r, stream, count);
        readers := readers.With(t.who, r.(kept := r.kept + r.chunk[..count], dealt := r.dealt + r.chunk, chunk := []));
        total := total + count;
        if |r.chunk| > remaining { overflow := true; }
      }
    }

    method Turns(schedule: seq<Turn>)
      requires Valid()
      modifies this
      ensures Valid()
      ensures forall w: Who :: old(readers).Of(w).kept <= readers.Of(w).kept
      ensures old(overflow) ==> overflow
      ensures forall w: Who :: old(readers).Of(w).done ==> readers.Of(w) == old(readers).Of(w)
    {
      for i := 0 to |schedule|
        invariant Valid()
        invariant forall w: Who :: old(readers).Of(w).kept <= readers.Of(w).kept
        invariant old(overflow) ==> overflow
        invariant forall w: Who :: old(readers).Of(w).done ==> readers.Of(w) == old(readers).Of(w)
      {
        Step(schedule[i]);
      }
    }

    /** The result, read without the lock while the readers may still run: joining them is bounded
        in time. Complete exactly when both had finished and the streams fit. */
    method Collect(before: seq<Turn>, between: seq<Turn>, after: seq<Turn>)
        returns (stdout: seq<Byte>, stderr: seq<Byte>, flag: bool, ghost joined: bool)
      requires Valid()
      modifies this
      ensures Valid()
      ensures stdout <= streams.stdout && stderr <= streams.stderr
      ensures |stdout| + |stderr| <= limit
      ensures joined && !flag ==> stdout == streams.stdout && stderr == streams.stderr
      ensures joined ==> (flag <==> |streams.stdout| + |streams.stderr| > limit)
      ensures flag ==> |streams.stdout| + |streams.stderr| > limit
    {
      Turns(before);
      joined := Finished();
      stdout := readers.Of(Stdout).kept;
      Turns(between);
      assert stdout <= readers.Of(Stdout).kept;
      stderr := readers.Of(Stderr).kept;
      Turns(after);
      flag := overflow;
      assert stdout <= readers.Of(Stdout).kept && stderr <= readers.Of(Stderr).kept;
      SoundMeans(readers.stdout, streams.stdout);
      SoundMeans(readers.stderr, streams.stderr);
    }
  }

  lemma SoundMeans(r: Reader, stream: seq<Byte>)
    requires Sound(r, stream)
    ensures r.kept <= stream && |r.kept| <= |r.dealt| <= |stream|
    ensures r.done ==> r.chunk == [] && r.unread == [] && r.dealt == stream
    ensures Dropping(r) <==> |r.kept| < |r.dealt|
    ensures !Dropping(r) ==> r.kept == r.dealt
  {
  }

  lemma EndSound(r: Reader, stream: seq<Byte>)
    requires Sound(r, stream) && r.chunk == [] && r.unread == []
    ensures Sound(r.(done := true), stream) && Dropping(r.(done := true)) == Dropping(r)
  {
  }

  lemma ReadSound(r: Reader, stream: seq<Byte>, n: nat)
    requires Sound(r, stream) && r.chunk == [] && !r.done && n <= |r.unread|
    ensures Sound(r.(chunk := r.unread[..n], unread := r.unread[n..]), stream)
    ensures Dropping(r.(chunk := r.unread[..n], unread := r.unread[n..])) == Dropping(r)
  {
  }

  /** A chunk cut short is a drop; what follows a drop is never kept. */
  lemma StoreSound(r: Reader, stream: seq<Byte>, count: nat)
    requires Sound(r, stream) && !r.done && count <= |r.chunk| && (Dropping(r) ==> count == 0)
    ensures Sound(r.(kept := r.kept + r.chunk[..count], dealt := r.dealt + r.chunk, chunk := []), stream)
    ensures r.chunk != [] ==>
              var after := r.(kept := r.kept + r.chunk[..count], dealt := r.dealt + r.chunk, chunk := []);
              (Dropping(after) <==> Dropping(r) || count < |r.chunk|)
  {
  }
}
