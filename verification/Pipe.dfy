/** The pipe's buffer: what is read is what was written, in order. */
module Pipe {
  import opened Basics
  import opened PipeRing

  class Buffer {
    var data: array<char>
    var nread: nat
    var nwrite: nat
    ghost var written: seq<char> // every byte ever written
    ghost var taken: nat         // how many of them have been read

    ghost predicate Valid()
      reads this, data
    {
      && data.Length == PIPESIZE && taken <= |written| <= taken + PIPESIZE
      && nread == taken % WORD && nwrite == |written| % WORD
      && forall i {:trigger written[i]} :: taken <= i < |written| ==> data[i % PIPESIZE] == written[i]
    }

    constructor ()
      ensures Valid() && fresh(data) && written == [] && taken == 0
    {
      data := new char[PIPESIZE](_ => '\0');
      nread, nwrite, written, taken := 0, 0, [], 0;
    }

    method PutByte(x: char)
      requires Valid() && |written| < taken + PIPESIZE
      modifies this`nwrite, this`written, data
      ensures Valid() && written == old(written) + [x]
    {
      SlotRight(|written|);
      forall i | taken <= i < |written| ensures i % PIPESIZE != |written| % PIPESIZE {
        SlotsDiffer(i, |written|, PIPESIZE);
      }
      data[nwrite % PIPESIZE] := x;
      nwrite := (nwrite + 1) % WORD;
      written := written + [x];
    }

    method TakeByte() returns (x: char)
      requires Valid() && taken < |written|
      modifies this`nread, this`taken
      ensures Valid() && taken == old(taken) + 1 && x == written[old(taken)]
    {
      SlotRight(taken);
      x := data[nread % PIPESIZE];
      nread := (nread + 1) % WORD;
      taken := taken + 1;
    }

    /** The copying loop of piperead: the next bytes, as many as asked for or as there are. */
    method Read(n: nat) returns (bytes: seq<char>)
      requires Valid()
      modifies this`nread, this`taken
      ensures Valid() && taken == old(taken) + |bytes| && bytes == written[old(taken)..taken]
      ensures |bytes| == if n <= |written| - old(taken) then n else |written| - old(taken)
    {
      bytes := [];
      while |bytes| < n
        invariant Valid() && taken == old(taken) + |bytes| && bytes == written[old(taken)..taken] && |bytes| <= n
      {
        CountersOf(taken, |written|);
        TestsRight(Counters(nread, nwrite));
        if nread == nwrite {
          break;
        }
        var x := TakeByte();
        bytes := bytes + [x];
      }
    }

    /** The writing loop of pipewrite, until it is done or the pipe is full. */
    method Write(bytes: seq<char>) returns (i: nat)
      requires Valid()
      modifies this`nwrite, this`written, data
      ensures Valid() && i <= |bytes| && written == old(written) + bytes[..i]
      ensures i == |bytes| || |written| == taken + PIPESIZE
    {
      i := 0;
      while i < |bytes|
        invariant Valid() && i <= |bytes| && written == old(written) + bytes[..i]
      {
        CountersOf(taken, |written|);
        TestsRight(Counters(nread, nwrite));
        if nwrite == (nread + PIPESIZE) % WORD {
          break;
        }
        PutByte(bytes[i]);
        i := i + 1;
      }
    }
  }
}
