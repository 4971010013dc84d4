/**
 * KSaneScanThread: the read engine that starts a scan, fetches the frame
 * parameters, reads chunks until the frame (or the last of three plane
 * frames) ends, and assembles the image.
 */
module ScanThread {
  import opened Sane
  import opened Device
  import opened ScanLayout
  import opened ScanDevice

  /** The chunk a read delivered, after the optional inversion for a frame of depth `depth`. */
  function Prepared(data: seq<Byte>, invert: bool, depth: int): (r: seq<Byte>)
    ensures |r| == |data|
    ensures !invert ==> r == data
  {
    if invert then Inverted(data, depth) else data
  }

  class KSaneScanThread {
    const dev: ScanHandle
    const bigEndian: bool
    const chunk: array<Byte>          // m_readData, SCAN_READ_CHUNK_SIZE bytes
    var image: seq<Byte>              // *m_data
    var frameSize: int                // m_frameSize
    var frameRead: nat                // m_frameRead
    var frameCount: nat               // m_frame_t_count
    var dataSize: int                 // m_dataSize
    var saneStatus: Status            // m_saneStatus
    var readStatus: ReadStatus        // m_readStatus
    var startDone: bool               // m_saneStartDone
    var invertColors: bool            // m_invertColors
    var params: Parameters            // m_params

    constructor (dev: ScanHandle, chunkSize: nat, bigEndian: bool, initial: Parameters)
      ensures this.dev == dev && this.bigEndian == bigEndian && fresh(chunk) && chunk.Length == chunkSize
      ensures image == [] && frameSize == 0 && frameRead == 0 && frameCount == 0 && dataSize == 0
      ensures saneStatus == Good && readStatus == ReadReady && !startDone && !invertColors
      ensures params == initial
    {
      this.dev := dev;
      this.bigEndian := bigEndian;
      chunk := new Byte[chunkSize];
      image := [];
      frameSize := 0;
      frameRead := 0;
      frameCount := 0;
      dataSize := 0;
      saneStatus := Good;
      readStatus := ReadReady;
      startDone := false;
      invertColors := false;
      params := initial;
    }

    /** setImageInverted */
    method SetImageInverted(inverted: bool)
      modifies this`invertColors
      ensures invertColors == inverted
    {
      invertColors := inverted;
    }

    /** cancelScan: only marks the read status; the loop notices it before its next read. */
    method CancelScan()
      modifies this`readStatus
      ensures readStatus == ReadCancel
    {
      readStatus := ReadCancel;
    }

    /** saneStartDone */
    function SaneStartDone(): bool
      reads this
    {
      startDone
    }

    /**
     * scanProgress: the percentage of the expected image read so far, in
     * [0, 100] as long as no more bytes were read than expected.
     */
    function ScanProgress(): (pc: int)
      reads this
      ensures pc == Progress(frameSize, frameRead, frameCount, dataSize)
      ensures dataSize == 0 ==> pc == 0
      ensures dataSize > 0 && 0 <= BytesRead(frameSize, frameRead, frameCount, dataSize) ==>
        pc == BytesRead(frameSize, frameRead, frameCount, dataSize) * 100 / dataSize
      ensures dataSize > 0 && 0 <= BytesRead(frameSize, frameRead, frameCount, dataSize) <= dataSize ==>
        0 <= pc <= 100
    {
      if dataSize > 0 && 0 <= BytesRead(frameSize, frameRead, frameCount, dataSize) <= dataSize then
        ProgressRange(frameSize, frameRead, frameCount, dataSize);
        Progress(frameSize, frameRead, frameCount, dataSize)
      else Progress(frameSize, frameRead, frameCount, dataSize)
    }

    /**
     * The inversion step of copyToScanData on the first n bytes of the
     * chunk: whole 16-bit samples at depth 16, bytes at depths 8 and 1.
     */
    method InvertChunk(n: nat)
      requires n <= chunk.Length
      modifies chunk
      ensures chunk[..n] == Inverted(old(chunk[..n]), params.depth)
      ensures chunk[n..] == old(chunk[n..])
    {
      ghost var before := chunk[..];
      if params.depth == 16 {
        ComplementSamples(n / 2);
      } else if params.depth == 8 {
        ComplementBytes(n);
      } else if params.depth == 1 {
        NotBytes(n);
      }
      assert chunk[..n] == Inverted(before[..n], params.depth);
    }

    /** u16ptr[i] = 0xFFFF - u16ptr[i] for the first `words` samples of the chunk. */
    method ComplementSamples(words: nat)
      requires 2 * words <= chunk.Length
      modifies chunk
      ensures forall j :: 0 <= j < 2 * words ==> chunk[j] == 255 - old(chunk[j])
      ensures forall j :: 2 * words <= j < chunk.Length ==> chunk[j] == old(chunk[j])
    {
      var i := 0;
      while i < words
        invariant 0 <= i <= words
        invariant forall j :: 0 <= j < 2 * i ==> chunk[j] == 255 - old(chunk[j])
        invariant forall j :: 2 * i <= j < chunk.Length ==> chunk[j] == old(chunk[j])
      {
        var b0, b1 := chunk[2 * i], chunk[2 * i + 1];
        var w := 0xFFFF - Sample16(b0, b1, bigEndian);
        Complement16(b0, b1, bigEndian);
        if bigEndian {
          chunk[2 * i] := w / 256;
          chunk[2 * i + 1] := w % 256;
        } else {
          chunk[2 * i] := w % 256;
          chunk[2 * i + 1] := w / 256;
        }
        i := i + 1;
      }
    }

    /** m_readData[i] = 0xFF - m_readData[i] for the first n bytes. */
    method ComplementBytes(n: nat)
      requires n <= chunk.Length
      modifies chunk
      ensures forall j :: 0 <= j < n ==> chunk[j] == 255 - old(chunk[j])
      ensures forall j :: n <= j < chunk.Length ==> chunk[j] == old(chunk[j])
    {
      var i := 0;
      while i < n
        invariant 0 <= i <= n
        invariant forall j :: 0 <= j < i ==> chunk[j] == 255 - old(chunk[j])
        invariant forall j :: i <= j < chunk.Length ==> chunk[j] == old(chunk[j])
      {
        chunk[i] := 0xFF - chunk[i];
        i := i + 1;
      }
    }

    /** m_readData[i] = ~m_readData[i] for the first n bytes. */
    method NotBytes(n: nat)
      requires n <= chunk.Length
      modifies chunk
      ensures forall j :: 0 <= j < n ==> chunk[j] == 255 - old(chunk[j])
      ensures forall j :: n <= j < chunk.Length ==> chunk[j] == old(chunk[j])
    {
      var i := 0;
      while i < n
        invariant 0 <= i <= n
        invariant forall j :: 0 <= j < i ==> chunk[j] == 255 - old(chunk[j])
        invariant forall j :: i <= j < chunk.Length ==> chunk[j] == old(chunk[j])
      {
        BitNotComplement(chunk[i]);
        chunk[i] := BitNot(chunk[i]);
        i := i + 1;
      }
    }

    /** The plane loop of copyToScanData: byte i of the chunk goes to the plane position of byte m_frameRead. */
    method ScatterPlane(c: nat, n: nat)
      requires PlaneDepth(params.depth) && c < 3 && n <= chunk.Length
      modifies this`image, this`frameRead
      ensures image == PlaceAll(old(image), params.depth, c, old(frameRead), chunk[..n])
      ensures frameRead == old(frameRead) + n
    {
      var i := 0;
      while i < n
        invariant 0 <= i <= n
        invariant image == PlaceAll(old(image), params.depth, c, old(frameRead), chunk[..i])
        invariant frameRead == old(frameRead) + i
      {
        assert chunk[..i + 1][..i] == chunk[..i];
        image := SetAt(image, PlaneIndex(params.depth, c, frameRead), chunk[i]);
        frameRead := frameRead + 1;
        i := i + 1;
      }
    }

    /**
     * copyToScanData: inverts the chunk when asked, then appends it (GRAY,
     * RGB) or scatters it into the interleaved image (plane frames); a
     * format the engine cannot handle sets the error status.
     */
    method CopyToScanData(n: nat)
      requires n <= chunk.Length
      modifies this`image, this`frameRead, this`readStatus, chunk
      ensures var data := Prepared(old(chunk[..n]), invertColors, params.depth);
        var pl := Placement(old(image), old(frameRead), params, data);
        && chunk[..n] == data
        && image == pl.image && frameRead == pl.frameRead
        && readStatus == (if pl.ok then old(readStatus) else ReadError)
    {
      if invertColors {
        InvertChunk(n);
      }
      match params.format {
        case FrameGray =>
          image := image + chunk[..n];
          frameRead := frameRead + n;
        case FrameRgb =>
          if params.depth == 1 {
            readStatus := ReadError;
          } else {
            image := image + chunk[..n];
            frameRead := frameRead + n;
          }
        case FrameOther(_) =>
          readStatus := ReadError;
        case _ =>
          if params.depth == 8 || params.depth == 16 {
            ScatterPlane(Channel(params.format), n);
          } else {
            readStatus := ReadError;
          }
      }
    }
  
    /**
     * readData: one sane_read into the chunk, then by its status:
     *  - GOOD: the chunk is placed;
     *  - EOF on a short frame: leftover bytes that fit are placed, a 1-bit
     *    frame may have its bytes-per-line corrected, and the scan is Ready;
     *  - EOF on a full last frame: Ready;
     *  - EOF on a full frame with more to come: restart and fetch the next
     *    frame's parameters (either failing is an error, the second one also
     *    cancels), then count the frame and place the chunk at its start;
     *  - anything else: an error, and the scan is cancelled.
     */
    method ReadData()
      modifies this`image, this`frameRead, this`frameCount, this`readStatus, this`saneStatus, this`params, chunk
      modifies dev`readReplies, dev`startReplies, dev`paramReplies, dev`cancels
      ensures dev.readReplies == Rest(old(dev.readReplies))
      ensures old(readStatus) != ReadCancel ==> readStatus != ReadCancel
      ensures old(dev.readReplies) == [] ==> readStatus == ReadError
      ensures var r := NextRead(old(dev.readReplies));
        var n := Delivered(r, chunk.Length);
        var data := r.bytes[..n];
        && (r.status == Good ==>
              var pl := Placement(old(image), old(frameRead), old(params), Prepared(data, invertColors, old(params).depth));
              && image == pl.image && frameRead == pl.frameRead
              && readStatus == (if pl.ok then old(readStatus) else ReadError)
              && params == old(params) && frameCount == old(frameCount)
              && saneStatus == Good
              && dev.startReplies == old(dev.startReplies) && dev.paramReplies == old(dev.paramReplies)
              && dev.cancels == old(dev.cancels))
        && (r.status == Eof && old(frameRead) < frameSize ==>
              var copied := n > 0 && old(frameRead) + n <= frameSize;
              var pl := if copied then Placement(old(image), old(frameRead), old(params), Prepared(data, invertColors, old(params).depth))
                        else Placed(old(image), old(frameRead), true);
              && image == pl.image && frameRead == pl.frameRead
              && params == CorrectedParams(old(params), pl.frameRead)
              && readStatus == ReadReady && saneStatus == Eof && frameCount == old(frameCount)
              && dev.startReplies == old(dev.startReplies) && dev.paramReplies == old(dev.paramReplies)
              && dev.cancels == old(dev.cancels))
        && (r.status == Eof && old(frameRead) >= frameSize && old(params).lastFrame ==>
              && image == old(image) && frameRead == old(frameRead) && params == old(params)
              && readStatus == ReadReady && saneStatus == Eof && frameCount == old(frameCount)
              && dev.startReplies == old(dev.startReplies) && dev.paramReplies == old(dev.paramReplies)
              && dev.cancels == old(dev.cancels))
        && (r.status == Eof && old(frameRead) >= frameSize && !old(params).lastFrame ==>
              var st := NextStatus(old(dev.startReplies));
              var pr := NextParams(old(dev.paramReplies), old(params));
              && dev.startReplies == Rest(old(dev.startReplies))
              && (st != Good ==>
                    && readStatus == ReadError && saneStatus == st
                    && image == old(image) && frameRead == old(frameRead) && params == old(params)
                    && frameCount == old(frameCount) && dev.cancels == old(dev.cancels)
                    && dev.paramReplies == old(dev.paramReplies))
              && (st == Good && pr.status != Good ==>
                    && readStatus == ReadError && saneStatus == pr.status
                    && image == old(image) && frameRead == old(frameRead) && params == old(params)
                    && frameCount == old(frameCount) && dev.cancels == old(dev.cancels) + 1)
              && (st == Good && pr.status == Good ==>
                    var pl := Placement(old(image), 0, pr.params, Prepared(data, invertColors, pr.params.depth));
                    && params == pr.params && frameCount == old(frameCount) + 1 && saneStatus == Good
                    && image == pl.image && frameRead == pl.frameRead
                    && readStatus == (if pl.ok then old(readStatus) else ReadError)
                    && dev.cancels == old(dev.cancels)))
        && (r.status != Good && r.status != Eof ==>
              && readStatus == ReadError && saneStatus == r.status
              && image == old(image) && frameRead == old(frameRead) && params == old(params)
              && frameCount == old(frameCount) && dev.cancels == old(dev.cancels) + 1)
    {
      var status, n := dev.Read(chunk);
      saneStatus := status;
      if status == Good {
        CopyToScanData(n);
      } else if status == Eof {
        if frameRead < frameSize {
          FinishShortFrame(n);
        } else if params.lastFrame {
          readStatus := ReadReady;
        } else {
          StartNextFrame(n);
        }
      } else {
        readStatus := ReadError;
        dev.Cancel();
      }
    }

    /**
     * The EOF branch of readData for a frame that ended early: the chunk is
     * placed when it fits in the frame, a 1-bit frame may have its
     * bytes_per_line corrected, and the scan is Ready.
     */
    method FinishShortFrame(n: nat)
      requires n <= chunk.Length && frameRead < frameSize
      modifies this`image, this`frameRead, this`readStatus, this`params, chunk
      ensures var copied := n > 0 && old(frameRead) + n <= frameSize;
        var pl := if copied then Placement(old(image), old(frameRead), old(params), Prepared(old(chunk[..n]), invertColors, old(params).depth))
                  else Placed(old(image), old(frameRead), true);
        && image == pl.image && frameRead == pl.frameRead
        && params == CorrectedParams(old(params), pl.frameRead)
        && readStatus == ReadReady
    {
      if n > 0 && frameRead + n <= frameSize {
        CopyToScanData(n);
      }
      if params.depth == 1 && params.lines > 0 && params.lines * params.pixelsPerLine <= frameRead * 8 {
        params := params.(bytesPerLine := frameRead / params.lines);
      }
      readStatus := ReadReady;
    }

    /**
     * The EOF branch of readData after a full frame that is not the last:
     * sane_start and sane_get_parameters for the next frame (a failure of
     * either is an error, the second one also cancels), then the frame is
     * counted and the chunk placed at its start.
     */
    method StartNextFrame(n: nat)
      requires n <= chunk.Length
      modifies this`image, this`frameRead, this`frameCount, this`readStatus, this`saneStatus, this`params, chunk
      modifies dev`startReplies, dev`paramReplies, dev`cancels
      ensures dev.startReplies == Rest(old(dev.startReplies))
      ensures var st := NextStatus(old(dev.startReplies));
        var pr := NextParams(old(dev.paramReplies), old(params));
        && (st != Good ==>
              && readStatus == ReadError && saneStatus == st
              && image == old(image) && frameRead == old(frameRead) && params == old(params)
              && frameCount == old(frameCount) && dev.cancels == old(dev.cancels)
              && dev.paramReplies == old(dev.paramReplies))
        && (st == Good && pr.status != Good ==>
              && readStatus == ReadError && saneStatus == pr.status
              && image == old(image) && frameRead == old(frameRead) && params == old(params)
              && frameCount == old(frameCount) && dev.cancels == old(dev.cancels) + 1)
        && (st == Good && pr.status == Good ==>
              var pl := Placement(old(image), 0, pr.params, Prepared(old(chunk[..n]), invertColors, pr.params.depth));
              && params == pr.params && frameCount == old(frameCount) + 1 && saneStatus == Good
              && image == pl.image && frameRead == pl.frameRead
              && readStatus == (if pl.ok then old(readStatus) else ReadError)
              && dev.cancels == old(dev.cancels))
    {
      saneStatus := dev.Start();
      if saneStatus != Good {
        readStatus := ReadError;
        return;
      }
      var pr := dev.GetParameters(params);
      saneStatus := pr.status;
      if saneStatus != Good {
        readStatus := ReadError;
        dev.Cancel();
        return;
      }
      params := pr.params;
      frameRead := 0;
      frameCount := frameCount + 1;
      CopyToScanData(n);
    }
  
    /**
     * run, with cancelScan calls injected at fixed points: during sane_start
     * (`cancelDuringStart`), between the parameter fetch and the start of the
     * read loop (`cancelDuringSetup`), and just before the loop test that
     * follows k reads, for each k in `cancelAt`. `steps` counts the reads,
     * the clock the cancellations are injected by.
     */
    method Run(cancelDuringStart: bool, cancelDuringSetup: bool, cancelAt: set<nat>) returns (steps: nat)
      modifies this`image, this`frameRead, this`frameCount, this`readStatus, this`saneStatus, this`params, chunk
      modifies this`frameSize, this`dataSize, this`startDone
      modifies dev`readReplies, dev`startReplies, dev`paramReplies, dev`cancels
      ensures startDone
      ensures cancelDuringStart ==>
        && readStatus == ReadCancel && saneStatus == NextStatus(old(dev.startReplies))
        && dev.paramReplies == old(dev.paramReplies)
      ensures !cancelDuringStart && NextStatus(old(dev.startReplies)) != Good ==>
        && readStatus == ReadError && saneStatus == NextStatus(old(dev.startReplies))
        && dev.paramReplies == old(dev.paramReplies)
      ensures !cancelDuringStart && NextStatus(old(dev.startReplies)) == Good
              && NextParams(old(dev.paramReplies), old(params)).status != Good ==>
        readStatus == ReadError && saneStatus == NextParams(old(dev.paramReplies), old(params)).status
      ensures !SetupSucceeds(cancelDuringStart, old(dev.startReplies), old(dev.paramReplies), old(params)) ==>
        && image == old(image) && dataSize == 0 && params == old(params)
        && dev.readReplies == old(dev.readReplies) && steps == 0
      ensures SetupSucceeds(cancelDuringStart, old(dev.startReplies), old(dev.paramReplies), old(params)) ==>
        var p := NextParams(old(dev.paramReplies), old(params)).params;
        && frameSize == FrameBytes(p) && dataSize == DataSize(p)
        && readStatus != ReadOnGoing
        && (readStatus == ReadCancel <==> steps in cancelAt)
        && (forall k :: 0 <= k < steps ==> k !in cancelAt)
        && |old(dev.readReplies)| - |dev.readReplies| == Min(steps, |old(dev.readReplies)|)
    {
      var go := Setup(cancelDuringStart, cancelDuringSetup);
      steps := 0;
      if go {
        steps := ReadLoop(cancelAt);
      }
    }

    /**
     * The part of run before the read loop: sane_start, the cancel check,
     * sane_get_parameters, the expected sizes, and the cleared image. A
     * cancel that arrives after the parameter fetch is overwritten by the
     * ON_GOING status the loop starts from. Returns whether the loop runs.
     */
    method Setup(cancelDuringStart: bool, cancelDuringSetup: bool) returns (go: bool)
      modifies this`image, this`frameRead, this`frameCount, this`readStatus, this`saneStatus, this`params
      modifies this`frameSize, this`dataSize, this`startDone
      modifies dev`startReplies, dev`paramReplies
      ensures startDone
      ensures go == SetupSucceeds(cancelDuringStart, old(dev.startReplies), old(dev.paramReplies), old(params))
      ensures dev.startReplies == Rest(old(dev.startReplies))
      ensures cancelDuringStart ==>
        && readStatus == ReadCancel && saneStatus == NextStatus(old(dev.startReplies))
        && dev.paramReplies == old(dev.paramReplies)
      ensures !cancelDuringStart && NextStatus(old(dev.startReplies)) != Good ==>
        && readStatus == ReadError && saneStatus == NextStatus(old(dev.startReplies))
        && dev.paramReplies == old(dev.paramReplies)
      ensures !cancelDuringStart && NextStatus(old(dev.startReplies)) == Good
              && NextParams(old(dev.paramReplies), old(params)).status != Good ==>
        readStatus == ReadError && saneStatus == NextParams(old(dev.paramReplies), old(params)).status
      ensures !go ==> image == old(image) && dataSize == 0 && params == old(params)
      ensures go ==>
        var p := NextParams(old(dev.paramReplies), old(params)).params;
        && params == p && frameSize == FrameBytes(p) && dataSize == DataSize(p)
        && image == [] && frameRead == 0 && frameCount == 0
        && readStatus == ReadOnGoing
    {
      dataSize := 0;
      readStatus := ReadOnGoing;
      startDone := false;

      saneStatus := dev.Start();
      if cancelDuringStart {
        CancelScan();
      }
      startDone := true;
      if readStatus == ReadCancel {
        return false;
      }
      if saneStatus != Good {
        readStatus := ReadError;
        return false;
      }

      var pr := dev.GetParameters(params);
      saneStatus := pr.status;
      if saneStatus != Good {
        readStatus := ReadError;
        return false;
      }
      params := pr.params;
      if cancelDuringSetup {
        CancelScan();
      }

      frameSize := params.lines * params.bytesPerLine;
      if params.format == FrameRed || params.format == FrameGreen || params.format == FrameBlue {
        dataSize := frameSize * 3;
      } else {
        dataSize := frameSize;
      }
      image := [];
      frameRead := 0;
      frameCount := 0;
      readStatus := ReadOnGoing;
      return true;
    }

    /**
     * The read loop of run: readData while the status is ON_GOING, with a
     * cancelScan injected before the loop test that follows k reads, for
     * each k in `cancelAt`. Returns the number of reads.
     */
    method ReadLoop(cancelAt: set<nat>) returns (steps: nat)
      requires readStatus == ReadOnGoing
      modifies this`image, this`frameRead, this`frameCount, this`readStatus, this`saneStatus, this`params, chunk
      modifies dev`readReplies, dev`startReplies, dev`paramReplies, dev`cancels
      ensures readStatus != ReadOnGoing
      ensures readStatus == ReadCancel <==> steps in cancelAt
      ensures forall k :: 0 <= k < steps ==> k !in cancelAt
      ensures |old(dev.readReplies)| - |dev.readReplies| == Min(steps, |old(dev.readReplies)|)
    {
      steps := 0;
      if 0 in cancelAt {
        CancelScan();
      }
      while readStatus == ReadOnGoing
        invariant readStatus == ReadCancel <==> steps in cancelAt
        invariant forall k :: 0 <= k < steps ==> k !in cancelAt
        invariant |dev.readReplies| <= |old(dev.readReplies)|
        invariant |old(dev.readReplies)| - |dev.readReplies| == Min(steps, |old(dev.readReplies)|)
        decreases |dev.readReplies| + (if readStatus == ReadOnGoing then 1 else 0)
      {
        ReadData();
        steps := steps + 1;
        if steps in cancelAt {
          CancelScan();
        }
      }
    }

    /** Whether run gets past sane_start and sane_get_parameters into the read loop. */
    static predicate SetupSucceeds(cancelDuringStart: bool, starts: seq<Status>, replies: seq<ParamReply>, current: Parameters) {
      !cancelDuringStart && NextStatus(starts) == Good && NextParams(replies, current).status == Good
    }

    function Min(a: int, b: int): int {
      if a < b then a else b
    }
  }
}
