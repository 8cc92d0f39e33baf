/** The streaming byte limiters: what a capped reader forwards. */
module ByteLimits {

  type Byte = b: int | 0 <= b < 256

  datatype Err = NoErr | Eof | LimitExceeded | SourceFailed | Panicked

  datatype Source = Source(content: seq<Byte>, pos: nat) {
    predicate Valid() { pos <= |content| }
  }

  /** One Read: the length of the caller's buffer, and how the source would like to answer, that is, how many bytes it
      is willing to give and which error it returns beside them. With any of these the source may show all that the
      io.Reader contract allows. */
  datatype Call = Call(len: nat, willing: nat, err: Err)

  datatype Result = Result(data: seq<Byte>, err: Err)

  function Min(a: int, b: int): int { if a <= b then a else b }

  /** The limit error and the panic are the limiters' own. */
  predicate Foreign(err: Err) { err == LimitExceeded || err == Panicked }

  /** The source gives at most the buffer and at most what is left. It says end-of-file only at its end. */
  function Take(s: Source, len: nat, call: Call): nat
    requires s.Valid()
  {
    Min(call.willing, Min(len, |s.content| - s.pos))
  }

  function RawRead(s: Source, len: nat, call: Call): (r: (Source, Result))
    requires s.Valid()
    ensures r.0.Valid() && r.0.content == s.content
  {
    var n := Take(s, len, call);
    var err := if Foreign(call.err) || (call.err == Eof && s.pos + n < |s.content|) then NoErr else call.err;
    (s.(pos := s.pos + n), Result(s.content[s.pos..s.pos + n], err))
  }

  datatype Kind = Upload | Download

  datatype Limiter = Limiter(src: Source, remaining: int, tripped: bool) {
    predicate Valid() { src.Valid() }
  }

  /** Only the upload limiter reads a negative limit as "no limit"; in the download limiter the slice expression
      panics. */
  function LimitedRead(kind: Kind, l: Limiter, call: Call): (r: (Limiter, Result))
    requires l.Valid()
    ensures r.0.Valid() && r.0.src.content == l.src.content
    ensures l.remaining >= 0 ==> 0 <= r.0.remaining == l.remaining - |r.1.data|
  {
    if l.remaining < 0 && kind.Download? then (l, Result([], Panicked))
    else if l.remaining < 0 then
      var (src, res) := RawRead(l.src, call.len, call);
      (l.(src := src), res)
    else if l.remaining == 0 then
      var (src, peeked) := RawRead(l.src, 1, call);
      if peeked.data != [] then
        (l.(src := src, tripped := l.tripped || kind.Upload?), Result([], LimitExceeded))
      else
        (l.(src := src), Result([], if kind.Upload? then Eof else peeked.err))
    else
      var (src, res) := RawRead(l.src, Min(call.len, l.remaining), call);
      (l.(src := src, remaining := l.remaining - |res.data|), res)
  }

  // ---- Whole runs -----------------------------------------------------------------------------------

  function Run(kind: Kind, l: Limiter, calls: seq<Call>): (r: (Limiter, seq<Result>))
    requires l.Valid()
    ensures r.0.Valid() && |r.1| == |calls| && r.0.src.content == l.src.content
  {
    if calls == [] then (l, [])
    else
      var (mid, results) := Run(kind, l, calls[..|calls| - 1]);
      var (end, result) := LimitedRead(kind, mid, calls[|calls| - 1]);
      (end, results + [result])
  }

  /** The source read directly, without a limiter. */
  function RawRun(s: Source, calls: seq<Call>): (r: (Source, seq<Result>))
    requires s.Valid()
    ensures r.0.Valid() && |r.1| == |calls| && r.0.content == s.content
  {
    if calls == [] then (s, [])
    else
      var (mid, results) := RawRun(s, calls[..|calls| - 1]);
      var last := calls[|calls| - 1];
      var (end, result) := RawRead(mid, last.len, last);
      (end, results + [result])
  }

  function Forwarded(results: seq<Result>): seq<Byte> {
    if results == [] then [] else Forwarded(results[..|results| - 1]) + results[|results| - 1].data
  }

  predicate Limited(results: seq<Result>) { exists i | 0 <= i < |results| :: results[i].err == LimitExceeded }

  function Start(content: seq<Byte>, max: int): (l: Limiter)
    ensures l.Valid()
  {
    Limiter(Source(content, 0), max, false)
  }

  /** What holds after any number of reads through a limit of max bytes. */
  predicate Tracks(kind: Kind, content: seq<Byte>, max: nat, l: Limiter, results: seq<Result>) {
    && l.src.content == content && l.src.Valid()
    && 0 <= l.remaining <= max && max - l.remaining <= l.src.pos
    && Forwarded(results) == content[..max - l.remaining]
    && (Limited(results) <==> l.src.pos > max - l.remaining)
    && (Limited(results) ==> l.remaining == 0)
    && (l.tripped <==> kind.Upload? && Limited(results))
  }

  lemma LimitedSnoc(results: seq<Result>, result: Result)
    ensures Limited(results + [result]) <==> Limited(results) || result.err == LimitExceeded
  {
    var all := results + [result];
    if Limited(results) {
      var i :| 0 <= i < |results| && results[i].err == LimitExceeded;
      assert all[i].err == LimitExceeded;
    }
    if result.err == LimitExceeded { assert all[|results|].err == LimitExceeded; }
  }

  lemma ReadTracks(kind: Kind, content: seq<Byte>, max: nat, l: Limiter, results: seq<Result>, call: Call)
    requires Tracks(kind, content, max, l, results)
    ensures Tracks(kind, content, max, LimitedRead(kind, l, call).0, results + [LimitedRead(kind, l, call).1])
  {
    var (end, result) := LimitedRead(kind, l, call);
    LimitedSnoc(results, result);
    assert (results + [result])[..|results|] == results;
    if l.remaining > 0 {
      assert l.src.pos == max - l.remaining;
      assert content[..max - end.remaining] == content[..max - l.remaining] + result.data;
    } else {
      assert result.data == [] && end.remaining == 0;
    }
  }

  lemma {:induction false} RunTracks(kind: Kind, content: seq<Byte>, max: nat, calls: seq<Call>)
    ensures var (l, results) := Run(kind, Start(content, max), calls); Tracks(kind, content, max, l, results)
  {
    if calls != [] {
      var before := calls[..|calls| - 1];
      RunTracks(kind, content, max, before);
      var (mid, results) := Run(kind, Start(content, max), before);
      ReadTracks(kind, content, max, mid, results, calls[|calls| - 1]);
    }
  }

  /** The forwarded bytes are a prefix of the source, never longer than the limit; the limit error appears only
      when the source is longer than the limit, and then exactly the first max bytes were forwarded; the upload
      limiter has recorded the error exactly when it returned it. */
  lemma ForwardsPrefixUpToLimit(kind: Kind, content: seq<Byte>, max: nat, calls: seq<Call>)
    ensures var (l, results) := Run(kind, Start(content, max), calls);
            && Forwarded(results) <= content && |Forwarded(results)| <= max
            && (Limited(results) ==> |content| > max && Forwarded(results) == content[..max])
            && (l.tripped <==> kind.Upload? && Limited(results))
  {
    RunTracks(kind, content, max, calls);
  }

  // ---- Sources within the limit -----------------------------------------------------------------------

  /** How the i-th answer through the limiter compares with the i-th direct answer. */
  predicate SameAnswer(kind: Kind, content: seq<Byte>, max: nat, before: seq<Byte>, result: Result, direct: Result) {
    && result.data == direct.data
    && (result.err == direct.err ||
        (kind.Upload? && result.err == Eof && |content| == max && before == content))
  }

  predicate SideBySide(kind: Kind, content: seq<Byte>, max: nat, results: seq<Result>, raw: seq<Result>)
    requires |results| == |raw|
  {
    forall i | 0 <= i < |raw| :: SameAnswer(kind, content, max, Forwarded(results[..i]), results[i], raw[i])
  }

  lemma ReadSameAnswer(kind: Kind, content: seq<Byte>, max: nat, l: Limiter, results: seq<Result>, call: Call)
    requires |content| <= max && Tracks(kind, content, max, l, results) && !Limited(results)
    ensures SameAnswer(kind, content, max, Forwarded(results), LimitedRead(kind, l, call).1,
        RawRead(l.src, call.len, call).1)
    ensures LimitedRead(kind, l, call).0.src == RawRead(l.src, call.len, call).0
  {
    assert l.src.pos == max - l.remaining;
    assert content[..|content|] == content;
  }

  lemma SideBySideSnoc(kind: Kind, content: seq<Byte>, max: nat, results: seq<Result>, raw: seq<Result>,
      result: Result, direct: Result)
    requires |results| == |raw| && SideBySide(kind, content, max, results, raw)
    requires SameAnswer(kind, content, max, Forwarded(results), result, direct)
    ensures SideBySide(kind, content, max, results + [result], raw + [direct])
  {
    forall i | 0 <= i <= |raw|
      ensures SameAnswer(kind, content, max, Forwarded((results + [result])[..i]), (results + [result])[i],
          (raw + [direct])[i])
    {
      assert (results + [result])[..i] == results[..i];
      if i == |raw| { assert results[..i] == results; }
    }
  }

  lemma {:induction false} RunsSideBySide(kind: Kind, content: seq<Byte>, max: nat, calls: seq<Call>)
    requires |content| <= max
    ensures var (l, results) := Run(kind, Start(content, max), calls);
            var (s, raw) := RawRun(Source(content, 0), calls);
            l.src == s && SideBySide(kind, content, max, results, raw)
  {
    if calls != [] {
      var before, last := calls[..|calls| - 1], calls[|calls| - 1];
      RunsSideBySide(kind, content, max, before);
      RunTracks(kind, content, max, before);
      var (mid, results) := Run(kind, Start(content, max), before);
      var (s, raw) := RawRun(Source(content, 0), before);
      ReadSameAnswer(kind, content, max, mid, results, last);
      SideBySideSnoc(kind, content, max, results, raw, LimitedRead(kind, mid, last).1, RawRead(s, last.len, last).1);
    }
  }

  /** A source no longer than the limit passes through unchanged: every read returns the bytes a direct read would
      have returned, and the limit error never appears. The download limiter also returns the same errors; the
      upload limiter may differ only for a source of exactly max bytes, once all of them were forwarded, where it
      answers end-of-file itself and hides whatever the source would have said. */
  lemma ShortSourcePassesThrough(kind: Kind, content: seq<Byte>, max: nat, calls: seq<Call>)
    requires |content| <= max
    ensures var results := Run(kind, Start(content, max), calls).1;
            var raw := RawRun(Source(content, 0), calls).1;
            && !Limited(results)
            && (kind.Download? || |content| < max ==> results == raw)
            && (forall i | 0 <= i < |calls| ::
                  && results[i].data == raw[i].data
                  && (results[i].err != raw[i].err ==> results[i].err == Eof && Forwarded(results[..i]) == content))
  {
    RunsSideBySide(kind, content, max, calls);
    RunTracks(kind, content, max, calls);
    var results := Run(kind, Start(content, max), calls).1;
    var raw := RawRun(Source(content, 0), calls).1;
    forall i | 0 <= i < |calls| ensures SameAnswer(kind, content, max, Forwarded(results[..i]), results[i], raw[i]) {}
  }

  /** A negative limit makes the upload limiter a direct read. */
  lemma {:induction false} NegativeLimitIsUnlimited(content: seq<Byte>, max: int, calls: seq<Call>)
    requires max < 0
    ensures var (l, results) := Run(Upload, Start(content, max), calls);
            var (s, raw) := RawRun(Source(content, 0), calls);
            l == Limiter(s, max, false) && results == raw
  {
    if calls != [] { NegativeLimitIsUnlimited(content, max, calls[..|calls| - 1]); }
  }

  /** And it makes every read of the download limiter panic, with nothing taken from the source. */
  lemma {:induction false} NegativeLimitPanics(content: seq<Byte>, max: int, calls: seq<Call>)
    requires max < 0
    ensures var (l, results) := Run(Download, Start(content, max), calls);
            l == Start(content, max) && forall i | 0 <= i < |results| :: results[i] == Result([], Panicked)
  {
    if calls != [] { NegativeLimitPanics(content, max, calls[..|calls| - 1]); }
  }

  // ---- End of file, and sources beyond the limit -------------------------------------------------------

  lemma ForwardedAll(kind: Kind, content: seq<Byte>, max: nat, l: Limiter, results: seq<Result>)
    requires Tracks(kind, content, max, l, results)
    ensures Forwarded(results) == content <==> max - l.remaining == |content|
    ensures |content| > max ==> (Forwarded(results) == content[..max] <==> l.remaining == 0)
  {
    assert |content[..max - l.remaining]| == max - l.remaining;
    assert content[..|content|] == content;
    if |content| > max { assert |content[..max]| == max; }
  }

  lemma ReadEof(kind: Kind, content: seq<Byte>, max: nat, l: Limiter, results: seq<Result>, call: Call)
    requires Tracks(kind, content, max, l, results) && !Limited(results)
    ensures var result := LimitedRead(kind, l, call).1;
            var silent := kind.Upload? && |content| > max && Forwarded(results) == content[..max] && call.willing == 0;
            && (result.err == Eof ==> (Forwarded(results + [result]) == content <==> !silent))
            && (silent ==> result == Result([], Eof))
  {
    ReadTracks(kind, content, max, l, results, call);
    var (end, result) := LimitedRead(kind, l, call);
    ForwardedAll(kind, content, max, l, results);
    ForwardedAll(kind, content, max, end, results + [result]);
  }

  /** End-of-file means the whole source was forwarded, as long as no limit error came before. For the upload
      limiter there is one exception, and it happens exactly when the source is longer than the limit, max bytes
      were forwarded, and the source gave no byte to the one-byte peek. */
  lemma EofMeansComplete(kind: Kind, content: seq<Byte>, max: nat, calls: seq<Call>, call: Call)
    requires !Limited(Run(kind, Start(content, max), calls).1)
    ensures var (l, results) := Run(kind, Start(content, max), calls);
            var result := LimitedRead(kind, l, call).1;
            var silent := kind.Upload? && |content| > max && Forwarded(results) == content[..max] && call.willing == 0;
            && (result.err == Eof ==> (Forwarded(results + [result]) == content <==> !silent))
            && (silent ==> result == Result([], Eof))
  {
    RunTracks(kind, content, max, calls);
    var (l, results) := Run(kind, Start(content, max), calls);
    ReadEof(kind, content, max, l, results, call);
  }

  /** Beyond the limit: once max bytes went through, the next read is refused exactly when the source gives the
      peek a byte. */
  lemma OverflowDetectedIff(kind: Kind, content: seq<Byte>, max: nat, calls: seq<Call>, call: Call)
    requires |content| > max
    requires !Limited(Run(kind, Start(content, max), calls).1) &&
        Forwarded(Run(kind, Start(content, max), calls).1) == content[..max]
    ensures LimitedRead(kind, Run(kind, Start(content, max), calls).0, call).1.err == LimitExceeded <==>
        call.willing > 0
  {
    RunTracks(kind, content, max, calls);
    var (l, results) := Run(kind, Start(content, max), calls);
    ForwardedAll(kind, content, max, l, results);
  }

  /** A source longer than the limit, read up to the limit, that gives the peek no byte: the upload ends as if complete,
      with the rest of the source unread. */
  lemma SilentlyCutOff(content: seq<Byte>, max: nat)
    requires 0 < max < |content|
    ensures var (l, results) := Run(Upload, Start(content, max), [Call(max, max, NoErr)]);
            Forwarded(results) == content[..max] && LimitedRead(Upload, l, Call(1, 0, NoErr)).1 == Result([], Eof)
  {
    var calls := [Call(max, max, NoErr)];
    assert calls[..0] == [];
    var (l, result) := LimitedRead(Upload, Start(content, max), calls[0]);
    assert Run(Upload, Start(content, max), calls) == (l, [] + [result]);
    ForwardedSnoc([], result);
    assert result.data == content[..max];
  }

  /** One-byte reads in a row. */
  function Peeks(k: nat): (calls: seq<Call>)
    ensures |calls| == k
  {
    if k == 0 then [] else Peeks(k - 1) + [Call(1, 1, Eof)]
  }

  lemma ForwardedSnoc(results: seq<Result>, result: Result)
    ensures Forwarded(results + [result]) == Forwarded(results) + result.data
  {
    assert (results + [result])[..|results|] == results;
  }

  predicate AllRefused(results: seq<Result>) { forall i | 0 <= i < |results| :: results[i].err == LimitExceeded }

  /** A run over the limit, with its source moved on by k bytes and nothing forwarded. */
  ghost predicate Drained(l: Limiter, k: nat, end: Limiter, results: seq<Result>) {
    && end.src == l.src.(pos := l.src.pos + k) && end.src.Valid() && end.remaining == 0
    && Forwarded(results) == [] && AllRefused(results)
  }

  lemma PeekRefused(kind: Kind, mid: Limiter)
    requires mid.Valid() && mid.remaining == 0 && mid.src.pos < |mid.src.content|
    ensures var (end, result) := LimitedRead(kind, mid, Call(1, 1, Eof));
            result == Result([], LimitExceeded) && end.src == mid.src.(pos := mid.src.pos + 1)
  {
  }

  lemma PeekDrains(kind: Kind, l: Limiter, k: nat, mid: Limiter, results: seq<Result>)
    requires Drained(l, k, mid, results) && mid.src.pos < |mid.src.content|
    ensures var (end, result) := LimitedRead(kind, mid, Call(1, 1, Eof)); Drained(l, k + 1, end, results + [result])
  {
    PeekRefused(kind, mid);
    ForwardedSnoc(results, Result([], LimitExceeded));
  }

  /** The refusal is not remembered by Read: once the limit is used up, peeked bytes are dropped one by one, so a
      caller that reads on after the refusals reaches end-of-file when the source is used up, and nothing more was
      forwarded. */
  lemma {:induction false} RefusalsDrainTheSource(kind: Kind, l: Limiter, k: nat)
    requires l.Valid() && l.remaining == 0 && l.src.pos + k <= |l.src.content|
    ensures var (end, results) := Run(kind, l, Peeks(k));
            && Drained(l, k, end, results)
            && (end.src.pos == |l.src.content| ==> LimitedRead(kind, end, Call(1, 1, Eof)).1 == Result([], Eof))
  {
    if k > 0 {
      RefusalsDrainTheSource(kind, l, k - 1);
      assert Peeks(k)[..k - 1] == Peeks(k - 1);
      var (mid, results) := Run(kind, l, Peeks(k - 1));
      PeekDrains(kind, l, k - 1, mid, results);
    }
  }

  // ---- The readers --------------------------------------------------------------------------------------

  /** The wrapped reader, as the limiters see it. */
  class Upstream {
    const content: seq<Byte>
    var pos: nat

    constructor (content: seq<Byte>)
      ensures this.content == content && pos == 0
    {
      this.content, pos := content, 0;
    }

    function View(): Source
      reads this
    {
      Source(content, pos)
    }

    method Read(len: nat, call: Call) returns (data: seq<Byte>, err: Err)
      requires View().Valid()
      modifies this
      ensures (View(), Result(data, err)) == RawRead(old(View()), len, call)
    {
      var n := Min(call.willing, Min(len, |content| - pos));
      data := content[pos..pos + n];
      pos := pos + n;
      err := call.err;
      if Foreign(err) || (err == Eof && pos < |content|) {
        err := NoErr;
      }
    }
  }

  class LimitReader {
    const r: Upstream
    var remaining: int
    var err: Err

    constructor (r: Upstream, max: int)
      ensures this.r == r && remaining == max && err == NoErr
    {
      this.r, remaining, err := r, max, NoErr;
    }

    function View(): Limiter
      reads this, r
    {
      Limiter(r.View(), remaining, err == LimitExceeded)
    }

    method Read(call: Call) returns (data: seq<Byte>, e: Err)
      requires View().Valid()
      modifies this, r
      ensures (View(), Result(data, e)) == LimitedRead(Upload, old(View()), call)
    {
      if remaining < 0 {
        data, e := r.Read(call.len, call);
        return;
      }
      if remaining == 0 {
        var one, _ := r.Read(1, call);
        if |one| > 0 {
          err := LimitExceeded;
          return [], LimitExceeded;
        }
        return [], Eof;
      }
      var len := call.len;
      if len > remaining {
        len := remaining;
      }
      data, e := r.Read(len, call);
      remaining := remaining - |data|;
    }
  }

  class LimitReadCloser {
    const rc: Upstream
    var remaining: int

    constructor (rc: Upstream, max: int)
      ensures this.rc == rc && remaining == max
    {
      this.rc, remaining := rc, max;
    }

    function View(): Limiter
      reads this, rc
    {
      Limiter(rc.View(), remaining, false)
    }

    method Read(call: Call) returns (data: seq<Byte>, e: Err)
      requires View().Valid()
      modifies this, rc
      ensures (View(), Result(data, e)) == LimitedRead(Download, old(View()), call)
    {
      if remaining == 0 {
        var one, err := rc.Read(1, call);
        if |one| > 0 {
          return [], LimitExceeded;
        }
        return [], err;
      }
      var len: int := call.len;
      if len > remaining {
        if remaining < 0 {
          return [], Panicked;
        }
        len := remaining;
      }
      data, e := rc.Read(len, call);
      remaining := remaining - |data|;
    }
  }
}
