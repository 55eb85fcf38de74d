/** The FFT branch of the IQ front end (core/src/signal_path/iq_frontend.cpp): the sink's worker
    runs `Handler` on every frame, while the setters change the sizes that it works with. Every
    write to what the handler uses asks that the sink has no worker (`Idle`), and every bracket
    that could give it one back asks that the sizes fit together (`Fits`). */
module FftPaths {
  import opened Blocks

  datatype Complex = Complex(re: real, im: real)

  datatype Window = Rectangular | Blackman | Nuttall

  /** A window function: the weight of sample i out of n. */
  type Weights = (Window, nat, nat) -> real

  function Square(x: real): real { x * x }

  // noisePower after the first k samples
  function NoisePower(w: Weights, kind: Window, n: nat, k: nat): real {
    if k == 0 then 0.0 else NoisePower(w, kind, n, k - 1) + Square(w(kind, k - 1, n))
  }

  // The sign alternates with the sample: a shift by half the spectrum.
  function Signed(w: Weights, kind: Window, n: nat, i: nat): real { if i % 2 == 0 then w(kind, i, n) else -w(kind, i,
      n) }

  /** The noise power is the sum of the squared weights: of a rectangular window the number of its
      samples, and never negative. */
  lemma {:induction false} NoisePowerIs(w: Weights, kind: Window, n: nat, k: nat)
    ensures NoisePower(w, kind, n, 0) == 0.0
    ensures NoisePower(w, kind, n, k + 1) == NoisePower(w, kind, n, k) + w(kind, k, n) * w(kind, k, n)
    ensures NoisePower(w, kind, n, k) >= 0.0
    ensures (forall i :: 0 <= i < k ==> w(kind, i, n) == 1.0) ==> NoisePower(w, kind, n, k) == k as real
  {
    if k > 0 { NoisePowerIs(w, kind, n, k - 1); }
  }

  // round(x) of a value that is not negative
  function Round(x: real): (r: nat)
    requires x >= 0.0
    ensures r as real - 0.5 <= x < r as real + 0.5
  {
    (x + 0.5).Floor
  }

  /** The period is the sample rate divided by the FFT rate, to the nearest sample. */
  predicate IsPeriod(period: nat, sampleRate: real, rate: real)
    requires rate >= 1.0
  {
    period as real - 0.5 <= sampleRate / rate < period as real + 0.5
  }

  /** genReshapeParams: of every `keep + skip` samples, which are those of one FFT period, the
      first `keep` are kept, as many as fit in the FFT. */
  method GenReshapeParams(sampleRate: real, size: nat, rate: real) returns (skip: nat, keep: nat)
    requires sampleRate >= 0.0 && rate >= 1.0
    ensures keep <= size && (skip > 0 ==> keep == size)
    ensures IsPeriod(keep + skip, sampleRate, rate)
  {
    var interval := Round(sampleRate / rate);
    keep := if interval < size then interval else size;
    skip := interval - keep;
  }

  /** There is one period, the rounded interval. */
  lemma PeriodIsInterval(period: nat, sampleRate: real, rate: real)
    requires sampleRate >= 0.0 && rate >= 1.0
    ensures IsPeriod(period, sampleRate, rate) <==> period == Round(sampleRate / rate)
  {
    var interval := Round(sampleRate / rate);
    if IsPeriod(period, sampleRate, rate) {
      assert (period as real - interval as real) < 1.0 && (interval as real - period as real) < 1.0;
    }
  }

  // Keeping `size` samples where `keep` were computed.
  lemma PeriodAfterInit(sampleRate: real, rate: real, size: nat, keep: nat, skip: nat)
    requires sampleRate >= 0.0 && rate >= 1.0
    requires keep <= size && (skip > 0 ==> keep == size) && IsPeriod(keep + skip, sampleRate, rate)
    ensures IsPeriod(size + skip, sampleRate, rate) <==> size <= Round(sampleRate / rate)
  {
    PeriodIsInterval(keep + skip, sampleRate, rate);
    PeriodIsInterval(size + skip, sampleRate, rate);
  }

  /** A million samples a second, twenty FFTs a second of 65536: the interval is 50000 samples and
      the window takes as many, but the reshaper as init leaves it keeps all 65536. */
  lemma InitKeepsTooMany(nz: nat, skip: nat)
    requires nz <= 65536 && (skip > 0 ==> nz == 65536) && IsPeriod(nz + skip, 1000000.0, 20.0)
    ensures nz == 50000 && skip == 0 && !IsPeriod(65536 + skip, 1000000.0, 20.0)
  {
    PeriodIsInterval(nz + skip, 1000000.0, 20.0);
    PeriodAfterInit(1000000.0, 20.0, 65536, nz, skip);
  }

  class FftPath {
    const os: Threads
    const reshape: Processor
    const sink: Processor
    const weights: Weights
    var effectiveSr: real
    var fftSize: nat
    var fftRate: real
    var fftWindow: Window
    var nzFFTSize: nat
    var keep: nat
    var skip: nat
    var fftWindowBuf: array<real>
    var noiseGain: real
    var planIn: array<Complex>
    var planOut: array<Complex>
    var row: array<real>
    // The sample rate that the DC blocker and the VFOs were last told.
    var inRates: map<Processor, real>

    /** No worker can be inside the handler. */
    ghost predicate Idle()
      reads os
    {
      sink !in os.live
    }

    /** What the handler needs: a window of nzFFTSize samples, no more than a frame holds and the FFT
        takes, a plan of fftSize, and a waterfall row at least as long. */
    ghost predicate Fits()
      reads this
    {
      && fftWindowBuf.Length == nzFFTSize && nzFFTSize <= keep && nzFFTSize <= fftSize
      && planIn.Length == planOut.Length == fftSize && fftSize <= row.Length
      && planIn != planOut && fftWindowBuf != row
    }

    /** The two workers, whatever brackets are open. */
    ghost predicate Workers()
      reads os, reshape, sink
    {
      && reshape != sink && reshape.os == os && sink.os == os
      && reshape.Valid() && reshape.View().Ok() && sink.Valid() && sink.View().Ok()
    }

    ghost predicate Valid()
      reads this, os, reshape, sink
    {
      Workers() && effectiveSr >= 0.0 && fftRate >= 1.0 && (Idle() || Fits())
    }

    /** The window in use, and the noise gain that belongs to it. */
    ghost predicate Windowed()
      reads this`fftWindowBuf, this`nzFFTSize, this`fftSize, this`fftWindow, this`noiseGain, fftWindowBuf
    {
      && fftWindowBuf.Length == nzFFTSize
      && (forall i :: 0 <= i < nzFFTSize ==> fftWindowBuf[i] == Signed(weights, fftWindow, nzFFTSize, i))
      && (fftSize > 0 ==> noiseGain * fftSize as real == NoisePower(weights, fftWindow, nzFFTSize, nzFFTSize))
    }

    /** Nothing is started before init, and there are no buffers yet. */
    constructor (os: Threads, reshape: Processor, sink: Processor, weights: Weights, row: array<real>)
      requires reshape != sink && reshape.os == os && sink.os == os
      requires reshape.Valid() && reshape.View() == Stopped && sink.Valid() && sink.View() == Stopped
      ensures Valid() && Idle() && this.os == os && this.reshape == reshape && this.sink == sink && this.row == row
    {
      this.os, this.reshape, this.sink, this.weights, this.row := os, reshape, sink, weights, row;
      effectiveSr, fftSize, fftRate, fftWindow, noiseGain := 0.0, 0, 1.0, Rectangular, 1.0;
      nzFFTSize, keep, skip, inRates := 0, 0, 0, map[];
      fftWindowBuf, planIn, planOut := new real[0], new Complex[0], new Complex[0];
    }

    /** The branch as init leaves it: everything fits before anything is started. The reshaper is
        told to keep fftSize samples, whatever the window takes of them, so its period is right if
        and only if the FFT is no longer than the interval between two of them. */
    method Init(sampleRate: real, fftSize: nat, fftRate: real, fftWindow: Window)
      requires Valid() && Idle() && sampleRate >= 0.0 && fftRate >= 1.0 && fftSize <= row.Length
      modifies this
      ensures Valid() && Fits() && Windowed()
      ensures this.fftSize == fftSize && this.fftWindow == fftWindow && this.fftRate == fftRate && effectiveSr == sampleRate
      ensures keep == fftSize && (skip > 0 ==> nzFFTSize == fftSize) && IsPeriod(nzFFTSize + skip, sampleRate, fftRate)
      ensures IsPeriod(keep + skip, sampleRate, fftRate) <==> fftSize <= Round(sampleRate / fftRate)
    {
      hide Windowed, Workers, IsPeriod, Round;
      var skip', nz := GenReshapeParams(sampleRate, fftSize, fftRate);
      PeriodAfterInit(sampleRate, fftRate, fftSize, nz, skip');
      WriteSettings(sampleRate, fftSize, fftRate, fftWindow, nz, skip');
      GenerateFFTWindow();
      AllocatePlan();
    }

    // The fields as init sets them; reshape.init(&fftIn, fftSize, skip).
    method WriteSettings(sampleRate: real, fftSize: nat, fftRate: real, fftWindow: Window, nz: nat, skip: nat)
      requires Workers() && Idle()
      modifies this`effectiveSr, this`fftSize, this`fftRate, this`fftWindow, this`nzFFTSize, this`keep, this`skip
      ensures Workers() && Idle() && effectiveSr == sampleRate
      ensures this.fftSize == fftSize && this.fftRate == fftRate && this.fftWindow == fftWindow
      ensures nzFFTSize == nz && keep == fftSize && this.skip == skip
    {
      effectiveSr, this.fftSize, this.fftRate, this.fftWindow := sampleRate, fftSize, fftRate, fftWindow;
      nzFFTSize, this.keep, this.skip := nz, fftSize, skip;
    }

    // ---- the handler, on the sink's thread

    /** Applies the window to the frame, and after the FFT writes the row. The number of samples in
        the frame is not looked at: the frame's buffer holds at least nzFFTSize. */
    method Handler(data: seq<Complex>, power: Complex -> real)
      requires Fits() && nzFFTSize <= |data|
      modifies planIn, row
      ensures forall i :: 0 <= i < nzFFTSize ==>
                planIn[i] == Complex(data[i].re * fftWindowBuf[i], data[i].im * fftWindowBuf[i])
      ensures forall i :: nzFFTSize <= i < fftSize ==> planIn[i] == old(planIn[i])
      ensures forall i :: 0 <= i < fftSize ==> row[i] == power(planOut[i])
      ensures forall i :: fftSize <= i < row.Length ==> row[i] == old(row[i])
    {
      ApplyWindow(data);
      PowerSpectrum(power);
    }

    // volk_32fc_32f_multiply_32fc
    method ApplyWindow(data: seq<Complex>)
      requires Fits() && nzFFTSize <= |data|
      modifies planIn
      ensures forall i :: 0 <= i < nzFFTSize ==>
                planIn[i] == Complex(data[i].re * fftWindowBuf[i], data[i].im * fftWindowBuf[i])
      ensures forall i :: nzFFTSize <= i < fftSize ==> planIn[i] == old(planIn[i])
    {
      var i := 0;
      while i < nzFFTSize
        invariant i <= nzFFTSize
        invariant forall k :: 0 <= k < i ==> planIn[k] == Complex(data[k].re * fftWindowBuf[k], data[k].im * fftWindowBuf[k])
        invariant forall k :: i <= k < fftSize ==> planIn[k] == old(planIn[k])
      {
        planIn[i] := Complex(data[i].re * fftWindowBuf[i], data[i].im * fftWindowBuf[i]);
        i := i + 1;
      }
    }

    // volk_32fc_s32f_power_spectrum_32f
    method PowerSpectrum(power: Complex -> real)
      requires Fits()
      modifies row
      ensures forall i :: 0 <= i < fftSize ==> row[i] == power(planOut[i])
      ensures forall i :: fftSize <= i < row.Length ==> row[i] == old(row[i])
    {
      var i := 0;
      while i < fftSize
        invariant i <= fftSize
        invariant forall k :: 0 <= k < i ==> row[k] == power(planOut[k])
        invariant forall k :: i <= k < row.Length ==> row[k] == old(row[k])
      {
        row[i] := power(planOut[i]);
        i := i + 1;
      }
    }

    // ---- what the handler uses is written while the sink has no worker

    // free and alloc, then the weights with alternating sign
    method GenerateFFTWindow()
      requires Idle()
      modifies this`fftWindowBuf, this`noiseGain
      ensures fresh(fftWindowBuf) && Windowed()
      ensures fftWindowBuf.Length == nzFFTSize && forall i :: 0 <= i < nzFFTSize ==>
                fftWindowBuf[i] == if i % 2 == 0 then weights(fftWindow, i, nzFFTSize) else -weights(fftWindow, i, nzFFTSize)
    {
      fftWindowBuf := new real[nzFFTSize];
      var noisePower, i := 0.0, 0;
      while i < nzFFTSize
        invariant i <= nzFFTSize && fftWindowBuf.Length == nzFFTSize
        invariant forall k :: 0 <= k < i ==> fftWindowBuf[k] == Signed(weights, fftWindow, nzFFTSize, k)
        invariant noisePower == NoisePower(weights, fftWindow, nzFFTSize, i)
        modifies fftWindowBuf
      {
        var w := weights(fftWindow, i, nzFFTSize);
        noisePower := noisePower + w * w;
        fftWindowBuf[i] := if i % 2 == 1 then -w else w;
        i := i + 1;
      }
      if fftSize > 0 {
        noiseGain := noisePower / fftSize as real;
      }
    }

    // allocateFFTWPlan, and clearing the rest of its input
    method AllocatePlan()
      requires Idle() && nzFFTSize <= fftSize
      modifies this`planIn, this`planOut
      ensures fresh(planIn) && fresh(planOut) && planIn != planOut
      ensures planIn.Length == planOut.Length == fftSize
      ensures forall i :: nzFFTSize <= i < fftSize ==> planIn[i] == Complex(0.0, 0.0)
    {
      planIn, planOut := new Complex[fftSize], new Complex[fftSize];
      var i := nzFFTSize;
      while i < fftSize
        invariant nzFFTSize <= i <= fftSize
        invariant forall k :: nzFFTSize <= k < i ==> planIn[k] == Complex(0.0, 0.0)
        modifies planIn
      {
        planIn[i] := Complex(0.0, 0.0);
        i := i + 1;
      }
    }

    // gui::waterfall.setRawFFTSize
    method SetRawFFTSize(size: nat)
      requires Idle()
      modifies this`row
      ensures fresh(row) && row.Length == size
    {
      row := new real[size](i => 0.0);
    }

    // ---- brackets around both workers

    method Suspend()
      requires Workers()
      modifies reshape, sink, os
      ensures Workers() && Idle() && reshape.tempStopDepth > 0 && sink.tempStopDepth > 0
      ensures reshape.View() == old(reshape.View()).TempStop() && sink.View() == old(sink.View()).TempStop()
      ensures os.live - {reshape, sink} == old(os.live) - {reshape, sink}
    {
      reshape.TempStop();
      sink.TempStop();
    }

    // Ends the brackets: the sink may run again, so the sizes must fit.
    method Resume()
      requires Workers() && Fits()
      modifies reshape, sink, os
      ensures Workers()
      ensures reshape.View() == old(reshape.View()).TempStart() && sink.View() == old(sink.View()).TempStart()
      ensures os.live - {reshape, sink} == old(os.live) - {reshape, sink}
    {
      reshape.TempStart();
      sink.TempStart();
    }

    // reshape.setKeep, reshape.setSkip
    method SetKeepAndSkip(keep: nat, skip: nat)
      requires Workers() && Idle()
      modifies this`keep, this`skip, reshape, os
      ensures Workers() && Idle() && this.keep == keep && this.skip == skip
      ensures reshape.View() == old(reshape.View()) && os.live - {reshape, sink} == old(os.live) - {reshape, sink}
    {
      BracketUndone(reshape.View());
      reshape.TempStop();
      this.keep := keep;
      reshape.TempStart();
      reshape.TempStop();
      this.skip := skip;
      reshape.TempStart();
    }

    // ---- reconfiguration

    // The rebuilding, between the brackets.
    method Rebuild(updateWaterfall: bool)
      requires Workers() && Idle() && effectiveSr >= 0.0 && fftRate >= 1.0 && (updateWaterfall || fftSize <= row.Length)
      modifies this`nzFFTSize, this`keep, this`skip, this`fftWindowBuf, this`noiseGain,
               this`planIn, this`planOut, this`row, reshape, os
      ensures Workers() && Idle() && Fits() && Windowed()
      ensures reshape.View() == old(reshape.View()) && os.live - {reshape, sink} == old(os.live) - {reshape, sink}
      ensures if updateWaterfall then row.Length == fftSize else row == old(row)
      ensures keep == nzFFTSize && IsPeriod(keep + skip, effectiveSr, fftRate)
      ensures skip > 0 ==> nzFFTSize == fftSize
    {
      hide Windowed, IsPeriod;
      var skip', nz := GenReshapeParams(effectiveSr, fftSize, fftRate);
      nzFFTSize := nz;
      SetKeepAndSkip(nzFFTSize, skip');
      GenerateFFTWindow();
      AllocatePlan();
      if updateWaterfall { SetRawFFTSize(fftSize); }
    }

    /** Rebuilds the branch for the current settings. The workers of the reshaper and of the sink
        are stopped meanwhile, and are in the end as they were. */
    method UpdateFFTPath(updateWaterfall: bool)
      requires Valid() && (updateWaterfall || fftSize <= row.Length)
      modifies this`nzFFTSize, this`keep, this`skip, this`fftWindowBuf, this`noiseGain,
               this`planIn, this`planOut, this`row, reshape, sink, os
      ensures Valid() && Fits() && Windowed() && os.live - {reshape, sink} == old(os.live) - {reshape, sink}
      ensures reshape.View() == old(reshape.View()) && sink.View() == old(sink.View())
      ensures if updateWaterfall then row.Length == fftSize else row == old(row)
      ensures keep == nzFFTSize && IsPeriod(keep + skip, effectiveSr, fftRate)
      ensures skip > 0 ==> nzFFTSize == fftSize
    {
      hide Windowed, IsPeriod;
      BracketUndone(reshape.View());
      BracketUndone(sink.View());
      Suspend();
      Rebuild(updateWaterfall);
      Resume();
    }

    /** The size is changed while the sink is stopped, before the waterfall's row is long enough. */
    method SetFFTSize(size: nat)
      requires Valid()
      modifies this`fftSize, this`nzFFTSize, this`keep, this`skip, this`fftWindowBuf, this`noiseGain,
               this`planIn, this`planOut, this`row, reshape, sink, os
      ensures Valid() && Fits() && Windowed() && fftSize == size && row.Length == size
      ensures reshape.View() == old(reshape.View()) && sink.View() == old(sink.View())
      ensures keep == nzFFTSize && IsPeriod(keep + skip, effectiveSr, fftRate)
    {
      hide Windowed, IsPeriod;
      BracketUndone(reshape.View());
      BracketUndone(sink.View());
      Suspend();
      WriteSize(size);
      UpdateFFTPath(true);
      Resume();
    }

    // _fftSize = size
    method WriteSize(size: nat)
      requires Idle()
      modifies this`fftSize
      ensures fftSize == size
    {
      fftSize := size;
    }

    /** A rate below one FFT a second is raised to it. */
    method SetFFTRate(rate: real)
      requires Valid() && fftSize <= row.Length
      modifies this`fftRate, this`nzFFTSize, this`keep, this`skip, this`fftWindowBuf, this`noiseGain,
               this`planIn, this`planOut, this`row, reshape, sink, os
      ensures Valid() && Fits() && Windowed() && fftRate == (if rate >= 1.0 then rate else 1.0) && row == old(row)
      ensures reshape.View() == old(reshape.View()) && sink.View() == old(sink.View())
      ensures keep == nzFFTSize && IsPeriod(keep + skip, effectiveSr, fftRate)
    {
      hide Windowed, IsPeriod;
      fftRate := if !(rate >= 1.0) then 1.0 else rate;
      UpdateFFTPath(false);
    }

    method SetFFTWindow(window: Window)
      requires Valid() && fftSize <= row.Length
      modifies this`fftWindow, this`nzFFTSize, this`keep, this`skip, this`fftWindowBuf, this`noiseGain,
               this`planIn, this`planOut, this`row, reshape, sink, os
      ensures Valid() && Fits() && Windowed() && fftWindow == window && row == old(row)
      ensures reshape.View() == old(reshape.View()) && sink.View() == old(sink.View())
      ensures keep == nzFFTSize && IsPeriod(keep + skip, effectiveSr, fftRate)
    {
      hide Windowed, IsPeriod;
      fftWindow := window;
      UpdateFFTPath(false);
    }

    // ---- the sample rate, which the DC blocker and the VFOs are told as well

    /** Other blocks than the two of the branch, each once, whatever brackets are open. */
    ghost predicate Others(ps: seq<Processor>)
      reads os, ps
    {
      && (forall k :: 0 <= k < |ps| ==>
            ps[k].os == os && ps[k] != reshape && ps[k] != sink && ps[k].Valid() && ps[k].View().Ok())
      && (forall j, k :: 0 <= j < k < |ps| ==> ps[j] != ps[k])
    }

    // tempStop of one of them
    method HoldOne(ps: seq<Processor>, i: nat)
      requires Workers() && Others(ps) && i < |ps|
      modifies ps[i], os
      ensures Workers() && Others(ps) && reshape.View() == old(reshape.View()) && sink.View() == old(sink.View())
      ensures ps[i] !in os.live && ps[i].View().TempStart() == old(ps[i].View())
      ensures forall k :: 0 <= k < |ps| && k != i ==>
                ps[k].View() == old(ps[k].View()) && (ps[k] in os.live ==> ps[k] in old(os.live))
    {
      BracketUndone(ps[i].View());
      ps[i].TempStop();
    }

    // tempStop of each
    method Hold(ps: seq<Processor>)
      requires Workers() && Others(ps)
      modifies ps, os
      ensures Workers() && Others(ps) && reshape.View() == old(reshape.View()) && sink.View() == old(sink.View())
      ensures forall k :: 0 <= k < |ps| ==> ps[k] !in os.live && ps[k].View().TempStart() == old(ps[k].View())
    {
      hide Workers, Others, Processor.View, Life.TempStart;
      var i := 0;
      while i < |ps|
        invariant i <= |ps| && Workers() && Others(ps)
        invariant reshape.View() == old(reshape.View()) && sink.View() == old(sink.View())
        invariant forall k :: 0 <= k < i ==> ps[k] !in os.live && ps[k].View().TempStart() == old(ps[k].View())
        invariant forall k :: i <= k < |ps| ==> ps[k].View() == old(ps[k].View())
        modifies ps, os
      {
        HoldOne(ps, i);
        i := i + 1;
      }
    }

    // tempStart of each
    method Release(ps: seq<Processor>)
      requires Workers() && Others(ps)
      modifies ps, os
      ensures Workers() && Others(ps) && reshape.View() == old(reshape.View()) && sink.View() == old(sink.View())
      ensures forall k :: 0 <= k < |ps| ==> ps[k].View() == old(ps[k].View()).TempStart()
    {
      var i := 0;
      while i < |ps|
        invariant i <= |ps| && Workers() && Others(ps)
        invariant reshape.View() == old(reshape.View()) && sink.View() == old(sink.View())
        invariant forall k :: 0 <= k < |ps| ==>
                    ps[k].View() == if k < i then old(ps[k].View()).TempStart() else old(ps[k].View())
        modifies ps, os
      {
        ps[i].TempStart();
        i := i + 1;
      }
    }

    // effectiveSr, and what follows from it in the blocks that are held back
    method WriteRate(rate: real, ps: seq<Processor>)
      requires rate >= 0.0 && forall k :: 0 <= k < |ps| ==> ps[k] !in os.live
      modifies this`effectiveSr, this`inRates
      ensures effectiveSr == rate && forall k :: 0 <= k < |ps| ==> ps[k] in inRates && inRates[ps[k]] == rate
    {
      effectiveSr := rate;
      var i := 0;
      while i < |ps|
        invariant i <= |ps| && effectiveSr == rate
        invariant forall k :: 0 <= k < i ==> ps[k] in inRates && inRates[ps[k]] == rate
      {
        inRates := inRates[ps[i] := effectiveSr];
        i := i + 1;
      }
    }

    /** The DC blocker and the VFOs (`ps`) are told the new rate, and the branch is rebuilt for it,
        while their workers are held back; in the end every block is as it was. */
    method SetSampleRate(sampleRate: real, decimRatio: real, ps: seq<Processor>)
      requires Valid() && Others(ps) && fftSize <= row.Length && sampleRate >= 0.0 && decimRatio >= 1.0
      modifies this`effectiveSr, this`nzFFTSize, this`keep, this`skip, this`fftWindowBuf, this`noiseGain,
               this`planIn, this`planOut, this`row, this`inRates, reshape, sink, ps, os
      ensures Valid() && Fits() && Windowed() && effectiveSr * decimRatio == sampleRate && row == old(row)
      ensures reshape.View() == old(reshape.View()) && sink.View() == old(sink.View())
      ensures keep == nzFFTSize && IsPeriod(keep + skip, effectiveSr, fftRate)
      ensures Others(ps) && forall k :: 0 <= k < |ps| ==>
                ps[k].View() == old(ps[k].View()) && ps[k] in inRates && inRates[ps[k]] == effectiveSr
    {
      hide Windowed, IsPeriod;
      Hold(ps);
      WriteRate(sampleRate / decimRatio, ps);
      Rebuilding(ps);
      Release(ps);
    }

    // updateFFTPath, while other blocks are held back
    method Rebuilding(ps: seq<Processor>)
      requires Valid() && Others(ps) && fftSize <= row.Length
      modifies this`nzFFTSize, this`keep, this`skip, this`fftWindowBuf, this`noiseGain,
               this`planIn, this`planOut, this`row, reshape, sink, os
      ensures Valid() && Fits() && Windowed() && row == old(row)
      ensures reshape.View() == old(reshape.View()) && sink.View() == old(sink.View())
      ensures keep == nzFFTSize && IsPeriod(keep + skip, effectiveSr, fftRate)
      ensures Others(ps) && forall k :: 0 <= k < |ps| ==> ps[k].View() == old(ps[k].View())
    {
      hide Windowed, IsPeriod;
      UpdateFFTPath(false);
      forall k | 0 <= k < |ps|
        ensures ps[k] in os.live <==> ps[k] in old(os.live)
        ensures ps[k] in os.live ==> os.live[ps[k]] == old(os.live)[ps[k]]
      {
        assert ps[k] in os.live <==> ps[k] in os.live - {reshape, sink};
        assert ps[k] in old(os.live) <==> ps[k] in old(os.live) - {reshape, sink};
      }
    }
  }
}
