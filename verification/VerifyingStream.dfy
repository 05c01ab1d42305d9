// The verifying stream of a copy (internal/copies/copies.go): the bytes of an archive are
// hashed and counted while a copy target reads them. The digest is a parameter.
module VerifyingStream {
  import opened Decimal
  import opened Numbers
  import opened Text

  /** The hex SHA-256 of some bytes. */
  type Digest = seq<Byte> -> string

  /** How a read ends: more may follow, the end of the stream, or an error. */
  datatype End = More | Eof | Broken | Mismatch

  /** One answer of the archive's reader; its End is never Mismatch. */
  datatype Answer = Answer(data: seq<Byte>, end: End)

  // ---- The reader ----

  datatype Reader = Reader(want: string, size: int, read: seq<Byte>, checked: bool, failed: bool)

  function Start(want: string, size: int): Reader { Reader(want, size, [], false, false) }

  /** The bytes are the recorded ones. */
  predicate Matches(d: Digest, want: string, size: int, bytes: seq<Byte>) { (size > 0 ==> |bytes| == size) && d(bytes) == want }

  /** The reader after one Read, and what that Read answered. */
  function ReadOnce(d: Digest, v: Reader, a: Answer): (Reader, Answer) {
    if v.failed then (v, Answer([], Mismatch))
    else
      var read := v.read + a.data;
      if a.end != Eof then (v.(read := read), a)
      else if Matches(d, v.want, v.size, read) then (v.(read := read, checked := true), a)
      else (v.(read := read, failed := true), Answer(a.data, Mismatch))
  }

  /** verifyingReader. */
  class VerifyingReader {
    const digest: Digest
    const want: string
    const size: int
    var hashed: seq<Byte>
    var n: int
    var checked: bool
    var failed: bool

    ghost predicate Valid()
      reads this
    {
      n == |hashed|
    }

    ghost function View(): Reader
      reads this
    {
      Reader(want, size, hashed, checked, failed)
    }

    constructor (digest: Digest, want: string, size: int)
      ensures Valid() && View() == Start(want, size) && this.digest == digest
    {
      this.digest, this.want, this.size := digest, want, size;
      hashed, n, checked, failed := [], 0, false, false;
    }

    /** Read: a is what the archive answers, unless a mismatch was found before. */
    method Read(a: Answer) returns (out: Answer)
      requires Valid()
      modifies this
      ensures Valid() && (View(), out) == ReadOnce(digest, old(View()), a)
    {
      if failed { return Answer([], Mismatch); }
      if |a.data| > 0 {
        hashed := hashed + a.data;
        n := n + |a.data|;
      }
      assert hashed == old(hashed) + a.data;
      if a.end != Eof { return a; }
      if size > 0 && n != size {
        failed := true;
        return Answer(a.data, Mismatch);
      }
      if digest(hashed) != want {
        failed := true;
        return Answer(a.data, Mismatch);
      }
      checked := true;
      return a;
    }
  }

  // ---- Whole streams ----

  /** The reader after the archive gave the answers. */
  function After(d: Digest, v: Reader, answers: seq<Answer>): Reader {
    if answers == [] then v else ReadOnce(d, After(d, v, answers[..|answers| - 1]), answers[|answers| - 1]).0
  }

  /** What the last Read answered. */
  function Last(d: Digest, v: Reader, answers: seq<Answer>): Answer
    requires answers != []
  {
    ReadOnce(d, After(d, v, answers[..|answers| - 1]), answers[|answers| - 1]).1
  }

  function Content(answers: seq<Answer>): seq<Byte> {
    if answers == [] then [] else Content(answers[..|answers| - 1]) + answers[|answers| - 1].data
  }

  predicate NoEnd(answers: seq<Answer>) { forall i :: 0 <= i < |answers| ==> answers[i].end != Eof }

  lemma {:induction false} BeforeTheEnd(d: Digest, v: Reader, answers: seq<Answer>)
    requires NoEnd(answers) && !v.failed
    ensures After(d, v, answers) == v.(read := v.read + Content(answers))
  {
    if answers != [] {
      BeforeTheEnd(d, v, answers[..|answers| - 1]);
    } else {
      assert v.read + [] == v.read;
    }
  }

  /**
   * The verifying stream does not depend on how reads are split, also when bytes come together
   * with the end: it ends with EOF exactly when all bytes together have the recorded digest,
   * and the recorded size if there is one, else with a mismatch.
   */
  lemma WholeStream(d: Digest, want: string, size: int, answers: seq<Answer>)
    requires answers != [] && answers[|answers| - 1].end == Eof && NoEnd(answers[..|answers| - 1])
    ensures var v, last := After(d, Start(want, size), answers), Last(d, Start(want, size), answers);
            && v.read == Content(answers) && last.data == answers[|answers| - 1].data
            && last.end == (if Matches(d, want, size, Content(answers)) then Eof else Mismatch)
            && v.checked == Matches(d, want, size, Content(answers)) && v.failed == !v.checked
  {
    var init := answers[..|answers| - 1];
    BeforeTheEnd(d, Start(want, size), init);
    assert [] + Content(init) == Content(init);
    assert After(d, Start(want, size), init) == Reader(want, size, Content(init), false, false);
  }

  /** A mismatch is sticky: whatever the archive answers later, every Read reports it and no byte passes. */
  lemma {:induction false} MismatchSticks(d: Digest, v: Reader, answers: seq<Answer>)
    requires v.failed
    ensures After(d, v, answers) == v
    ensures answers != [] ==> Last(d, v, answers) == Answer([], Mismatch)
  {
    if answers != [] { MismatchSticks(d, v, answers[..|answers| - 1]); }
  }

  /** EOF is answered only when what was read so far matches, in any stream whatever. */
  lemma EofMeansMatch(d: Digest, v: Reader, answers: seq<Answer>)
    requires answers != [] && Last(d, v, answers).end == Eof
    ensures Matches(d, v.want, v.size, After(d, v, answers).read) && After(d, v, answers).checked
  {
    WantKept(d, v, answers[..|answers| - 1]);
  }

  lemma {:induction false} WantKept(d: Digest, v: Reader, answers: seq<Answer>)
    ensures After(d, v, answers).want == v.want && After(d, v, answers).size == v.size
  {
    if answers != [] { WantKept(d, v, answers[..|answers| - 1]); }
  }

  // ---- Copy ----

  /** An archive's reader keeps to io.Reader: it gives the archive in order, EOF only with its end, and EOF again after that. */
  ghost predicate Reads(archive: seq<Byte>, answers: seq<Answer>) {
    forall i :: 0 <= i < |answers| ==> ReadsAt(archive, answers, i)
  }

  ghost predicate ReadsAt(archive: seq<Byte>, answers: seq<Answer>, i: nat)
    requires i < |answers|
  {
    && Content(answers[..i + 1]) <= archive
    && answers[i].end != Mismatch
    && (answers[i].end == Eof ==> Content(answers[..i + 1]) == archive)
  }

  datatype Result = NoChecksum | NotRead | WrongBytes | NotWritten | Incomplete(obj: Option<string>) | Ok(obj: Option<string>)

  /** The lower case of a checksum; hex digits are the only letters a digest has. */
  function Lower(s: string): string { seq(|s|, i requires 0 <= i < |s| => if 'A' <= s[i] <= 'Z' then s[i] - 'A' + 'a' else s[i]) }

  /**
   * Copy: the copy target reads the archive's answers, as many as it likes, and then says
   * whether it stored an object.
   */
  method Copy(d: Digest, sha: string, size: int, retrieved: Option<seq<Answer>>, saved: bool, obj: Option<string>) returns (r: Result)
    ensures r == CopyResult(d, sha, size, retrieved, saved, obj)
  {
    var want := Lower(Trim(sha));
    if want == "" { return NoChecksum; }
    if retrieved.None? { return NotRead; }
    var answers := retrieved.value;
    var v := new VerifyingReader(d, want, size);
    for i := 0 to |answers|
      invariant v.Valid() && v.digest == d && v.View() == After(d, Start(want, size), answers[..i])
    {
      assert answers[..i + 1][..i] == answers[..i];
      var _ := v.Read(answers[i]);
    }
    assert answers[..|answers|] == answers;
    if v.failed { return WrongBytes; }
    if !saved { return NotWritten; }
    if !v.checked { return Incomplete(obj); }
    return Ok(obj);
  }

  function CopyResult(d: Digest, sha: string, size: int, retrieved: Option<seq<Answer>>, saved: bool, obj: Option<string>): Result {
    var want := Lower(Trim(sha));
    if want == "" then NoChecksum
    else if retrieved.None? then NotRead
    else
      var v := After(d, Start(want, size), retrieved.value);
      if v.failed then WrongBytes else if !saved then NotWritten else if !v.checked then Incomplete(obj) else Ok(obj)
  }

  /** The reader has seen exactly what the archive gave, and judged it if the end came. */
  ghost predicate Judged(d: Digest, want: string, size: int, archive: seq<Byte>, answers: seq<Answer>) {
    var v := After(d, Start(want, size), answers);
    var ended := exists i :: 0 <= i < |answers| && answers[i].end == Eof;
    && (v.failed <==> ended && !Matches(d, want, size, archive))
    && (v.checked <==> ended && Matches(d, want, size, archive))
    && (!v.failed ==> v.read == Content(answers))
    && (ended ==> Content(answers) == archive)
  }

  lemma PrefixReads(archive: seq<Byte>, answers: seq<Answer>)
    requires Reads(archive, answers) && answers != []
    ensures Reads(archive, answers[..|answers| - 1]) && ReadsAt(archive, answers, |answers| - 1)
  {
    var init := answers[..|answers| - 1];
    forall i | 0 <= i < |init|
      ensures ReadsAt(archive, init, i)
    {
      assert ReadsAt(archive, answers, i);
      assert init[..i + 1] == answers[..i + 1];
    }
  }

  lemma {:induction false} JudgedAlways(d: Digest, want: string, size: int, archive: seq<Byte>, answers: seq<Answer>)
    requires Reads(archive, answers)
    ensures Judged(d, want, size, archive, answers)
  {
    if answers != [] {
      var init, last := answers[..|answers| - 1], answers[|answers| - 1];
      PrefixReads(archive, answers);
      JudgedAlways(d, want, size, archive, init);
      assert answers[..|answers| - 1 + 1] == answers;
      assert forall i :: 0 <= i < |init| ==> init[i] == answers[i];
      WantKept(d, Start(want, size), init);
      if exists i :: 0 <= i < |init| && init[i].end == Eof {
        assert Content(answers) == archive + last.data && |Content(answers)| <= |archive|;
        assert last.data == [];
      }
    }
  }

  /**
   * Copy succeeds exactly when the archive was read to its end, has the recorded digest (and
   * size, if one is recorded) and the copy target stored it: never on a part of it, on other
   * bytes or without a checksum.
   */
  lemma CopyMeansWhole(d: Digest, sha: string, size: int, archive: seq<Byte>, answers: seq<Answer>, saved: bool, obj: Option<string>)
    requires Reads(archive, answers)
    ensures CopyResult(d, sha, size, Some(answers), saved, obj).Ok?
       <==> && Trim(sha) != "" && saved && Matches(d, Lower(Trim(sha)), size, archive)
            && exists i :: 0 <= i < |answers| && answers[i].end == Eof
    ensures CopyResult(d, sha, size, Some(answers), saved, obj).Ok? ==> Content(answers) == archive
  {
    JudgedAlways(d, Lower(Trim(sha)), size, archive, answers);
  }
}
