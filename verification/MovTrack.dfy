/** A track and the passes that build its tables in the scratch fields of its samples. */
module MovTrack {
  import opened Bytes
  import opened Runs
  import opened SampleTables
  import opened Timing
  import opened Scratch
  import opened TrackBoxes

  class Track {
    const header: Header
    var samples: seq<Sample>
    var duration: nat
    var offset: nat     // added to every chunk offset on writing
    var cttsV1: bool    // sticky: once set, ctts is written as version 1

    constructor (header: Header)
      ensures this.header == header && samples == [] && duration == 0 && offset == 0 && !cttsV1
    {
      this.header := header;
      samples, duration, offset, cttsV1 := [], 0, 0, false;
    }

    ghost function V(): TrackV
      reads this
    {
      TrackV(header, duration, Medias(samples), offset, cttsV1)
    }

    /** sample_count is a uint32_t, and decode times never go back. */
    ghost predicate Writable()
      reads this
    {
      |samples| <= UINT32_MAX && NeverBack(Medias(samples))
    }

    method BuildStts() returns (count: nat)
      requires Writable()
      modifies this`samples
      ensures V() == old(V())
      ensures RunsIn(Heads(samples)) == Compress(Deltas(Medias(samples)))
      ensures count == |Heads(samples)|
    {
      ghost var ms := Medias(samples);
      ghost var keys := Deltas(ms);
      hide RunsDone, Compress, Heads, RunsIn, Open, Join;
      var i, head := 0, -1;
      count := 0;
      RunsStart(samples, keys);
      while i < |samples|
        invariant i <= |samples| && Medias(samples) == ms && (head == -1 <==> i == 0)
        invariant RunsDone(samples, keys, i, head)
        invariant count == |Compress(keys[..i])|
      {
        RunsHead(samples, keys, i, head);
        assert samples[i].m == ms[i] && (i + 1 < |ms| ==> samples[i + 1].m == ms[i + 1]);
        var delta := U32(if i + 1 < |samples| && samples[i + 1].m.dts > samples[i].m.dts
                         then samples[i + 1].m.dts - samples[i].m.dts else 1);
        if head != -1 && delta == samples[head].samplesPerChunk {
          JoinRun(samples, keys, i, head);
          samples := Join(samples, i, head, samples[head].firstChunk + 1, delta);
        } else {
          OpenRun(samples, keys, i, head);
          samples := Open(samples, i, 1, delta);
          head := i;
          count := count + 1;
        }
        i := i + 1;
      }
      RunsEnd(samples, keys, head);
    }

    method BuildCtts() returns (count: nat)
      requires |samples| <= UINT32_MAX
      modifies this`samples, this`cttsV1
      ensures V() == old(V()).(cttsV1 := old(cttsV1) || NegativeRun(Medias(samples)))
      ensures RunsIn(Heads(samples)) == Compress(Offsets(Medias(samples)))
      ensures samples != [] ==> samples[0].firstChunk != 0
      ensures count == |Heads(samples)|
    {
      ghost var ms := Medias(samples);
      ghost var keys := Offsets(ms);
      hide RunsDone, Compress, Heads, RunsIn, Open, Join;
      var i, head := 0, -1;
      count := 0;
      RunsStart(samples, keys);
      while i < |samples|
        invariant i <= |samples| && Medias(samples) == ms && (head == -1 <==> i == 0)
        invariant RunsDone(samples, keys, i, head)
        invariant count == |Compress(keys[..i])|
        invariant cttsV1 == (old(cttsV1) || NegativeRun(ms[..i]))
        invariant i > 0 ==> 0 <= head < i && samples[head].samplesPerChunk == keys[i - 1]
      {
        RunsHead(samples, keys, i, head);
        assert samples[i].m == ms[i] && ms[..i + 1][..i] == ms[..i];
        var delta := U32(samples[i].m.pts - samples[i].m.dts);
        if i > 0 && delta == samples[head].samplesPerChunk {
          JoinRun(samples, keys, i, head);
          samples := Join(samples, i, head, samples[head].firstChunk + 1, delta);
        } else {
          OpenRun(samples, keys, i, head);
          samples := Open(samples, i, 1, delta);
          head := i;
          count := count + 1;
          if samples[i].m.pts < samples[i].m.dts {
            cttsV1 := true;
          }
        }
        i := i + 1;
      }
      RunsEnd(samples, keys, head);
      assert ms[..i] == ms;
    }

    method BuildStco() returns (count: nat)
      requires |samples| <= UINT32_MAX
      modifies this`samples
      ensures V() == old(V())
      ensures ChunksIn(Heads(samples), Chunks(Medias(samples)))
      ensures count == |Chunks(Medias(samples))|
    {
      ghost var ms := Medias(samples);
      hide ChunksDone, ChunksIn, Heads, Chunks, Open, Join, Medias;
      var i, head := 0, -1;
      var bytes: nat := 0;
      count := 0;
      ChunksStart(samples);
      while i < |samples|
        invariant i <= |samples| <= UINT32_MAX && Medias(samples) == ms && (head == -1 <==> i == 0)
        invariant ChunksDone(samples, i, head, count, bytes)
      {
        ChunksHead(samples, i, head, count, bytes);
        var m := samples[i].m;
        if head != -1 && samples[head].m.offset + bytes == m.offset && samples[head].m.sdi == m.sdi {
          JoinChunk(samples, i, head, count, bytes);
          samples := Join(samples, i, head, samples[head].firstChunk, samples[head].samplesPerChunk + 1);
          bytes := bytes + m.bytes;
        } else {
          OpenChunk(samples, i, head, count, bytes);
          samples := Open(samples, i, count + 1, 1);
          bytes := m.bytes;
          head := i;
          count := count + 1;
        }
        i := i + 1;
      }
      ChunksEnd(samples, head, count, bytes);
    }
  }
}
