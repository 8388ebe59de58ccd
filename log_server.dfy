/**
  The named-pipe log collector (logserver.js): a table from each connected
  socket to the client's name and the number of non-blank lines it sent.
  The pipe I/O and the console output are not modelled; only the table.
*/
module LogServer {

  import opened Common

  /** An integer identifies each socket. */
  type Socket = int

  /**
    The value stored for a socket: the empty string `''` put there on
    connection, or the record `{name, refcount}` built from the first chunk.
  */
  datatype Entry = Pending | Session(name: string, refcount: int)

  /** The characters JavaScript's `String.prototype.trimEnd` removes
      (WhiteSpace and LineTerminator of ECMA-262). */
  predicate IsJsSpace(c: char) {
    c == '\t' || c == '\n' || c == '\U{B}' || c == '\U{C}' || c == '\r' || c == ' ' ||
    c == '\U{A0}' || c == '\U{1680}' || ('\U{2000}' <= c <= '\U{200A}') ||
    c == '\U{2028}' || c == '\U{2029}' || c == '\U{202F}' || c == '\U{205F}' ||
    c == '\U{3000}' || c == '\U{FEFF}'
  }

  /** `s.trimEnd()`: the longest prefix of `s` that does not end in white space. */
  function TrimEnd(s: string): (r: string)
    ensures |r| <= |s| && r == s[..|r|]
    ensures r == [] || !IsJsSpace(r[|r| - 1])
    ensures forall i :: |r| <= i < |s| ==> IsJsSpace(s[i])
  {
    if s == [] || !IsJsSpace(s[|s| - 1]) then s else TrimEnd(s[..|s| - 1])
  }

  /** A chunk counts as a line when something other than white space is in it. */
  predicate IsBlank(chunk: string) {
    TrimEnd(chunk) == ""
  }

  lemma BlankIffAllSpace(chunk: string)
    ensures IsBlank(chunk) <==> forall i :: 0 <= i < |chunk| ==> IsJsSpace(chunk[i])
  {
    if !IsBlank(chunk) {
      var r := TrimEnd(chunk);
      assert !IsJsSpace(chunk[|r| - 1]);
    }
  }

  /** What the `data` handler makes of an existing entry. */
  function Step(e: Entry, chunk: string): (r: Entry)
    ensures r.Session?
    ensures e.Session? ==> r.name == e.name
    ensures e.Pending? ==> r.name == chunk
    ensures r.refcount == (if e.Pending? then -1 else e.refcount) + (if IsBlank(chunk) then 0 else 1)
  {
    var started := if e.Pending? then Session(chunk, -1) else e;
    if IsBlank(chunk) then started else Session(started.name, started.refcount + 1)
  }

  /** The entry after a connection received `chunks` in order. */
  function Replay(e: Entry, chunks: seq<string>): Entry
    decreases |chunks|
  {
    if chunks == [] then e else Replay(Step(e, chunks[0]), chunks[1..])
  }

  /** Number of chunks that are not blank. */
  function CountNonBlank(chunks: seq<string>): nat
  {
    if chunks == [] then 0 else (if IsBlank(chunks[0]) then 0 else 1) + CountNonBlank(chunks[1..])
  }

  /** Once a name is recorded it never changes; each non-blank chunk adds one. */
  lemma {:induction false} ReplaySession(name: string, count: int, chunks: seq<string>)
    ensures Replay(Session(name, count), chunks) == Session(name, count + CountNonBlank(chunks))
    decreases |chunks|
  {
    if chunks != [] {
      ReplaySession(name, count + (if IsBlank(chunks[0]) then 0 else 1), chunks[1..]);
    }
  }

  /**
    The whole life of a connection: the name is the text of the first chunk,
    and the refcount is one less than the number of non-blank chunks.
  */
  lemma {:induction false} ReplayFromConnection(chunks: seq<string>)
    requires chunks != []
    ensures Replay(Pending, chunks) == Session(chunks[0], CountNonBlank(chunks) - 1)
  {
    var first := Step(Pending, chunks[0]);
    ReplaySession(first.name, first.refcount, chunks[1..]);
  }

  /** The error thrown when a handler reads a field of a missing entry. */
  datatype Thrown = TypeError

  /** The collector's `socks` map. */
  class Collector {
    var socks: map<Socket, Entry>

    constructor ()
      ensures socks == map[]
    {
      socks := map[];
    }

    /** `connection`: the socket gets the entry `''`. */
    method OnConnection(s: Socket)
      modifies this
      ensures socks == old(socks)[s := Pending]
    {
      socks := socks[s := Pending];
    }

    /**
      `data`: a pending entry becomes `{name: chunk, refcount: -1}`; a chunk
      that is not blank then adds one to refcount. A non-blank chunk on a
      socket with no entry reads `undefined.name` and throws.
    */
    method OnData(s: Socket, chunk: string) returns (thrown: Option<Thrown>)
      modifies this
      ensures s in old(socks) ==> thrown == None && socks == old(socks)[s := Step(old(socks)[s], chunk)]
      ensures s !in old(socks) ==> socks == old(socks) && (thrown == Some(TypeError) <==> !IsBlank(chunk))
    {
      thrown := None;
      if s in socks && socks[s] == Pending {
        socks := socks[s := Session(chunk, -1)];
      }
      var str := TrimEnd(chunk);
      if str != "" {
        if s !in socks {
          thrown := Some(TypeError);
          return;
        }
        var data := socks[s];
        socks := socks[s := Session(data.name, data.refcount + 1)];
      }
    }

    /** `end`: the socket's entry is deleted; the log line reads `.name` of
        the entry, which throws when there is none. */
    method OnEnd(s: Socket) returns (thrown: Option<Thrown>)
      modifies this
      ensures s in old(socks) ==> thrown == None && socks == old(socks) - {s}
      ensures s !in old(socks) ==> thrown == Some(TypeError) && socks == old(socks)
    {
      if s !in socks {
        return Some(TypeError);
      }
      thrown := None;
      socks := socks - {s};
    }
  }
}
