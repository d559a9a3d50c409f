# Paulstretch background stretcher — a Dafny model

This project models the audio core of the meditation-audio backend:

- `paulstretch` (backend/main.py:24-225) stretches the ambient background. It is Paul Nasca's extreme time-stretch.
  - Each analysis window is read with a Hann window and transformed.
  - The complex spectra of the current and the previous frame are cross-faded. Their magnitudes feed only the onset profile.
  - Random phases are applied and the frame is resynthesised.
  - The frames are overlap-added at half a window per output chunk, with amplitude demodulation and clipping.
  - A 32-band spectral profile detects onsets. An onset snaps the cross-fade forward and slows the read cursor down.
- The mixing tail of `process_audio` (backend/main.py:251-303) combines the stretched background with the voice:
  - it trims or pads the background to the voice's length;
  - applies the gain;
  - matches the channel layout;
  - adds the two;
  - normalises the peak.

Real numbers stand in for floats. The Fourier transforms, the magnitude function, the random phases and the cosine are foreign numerics. They are passed in as a `Numerics` value, and only their shapes are assumed.

Modules:

- `Samples`: sample-sequence helpers and arithmetic facts.
- `Signals`: the mono / multi-channel `Audio` type.
- `Window`: window size, fade-out, Hann and inverse tables.
- `Spectrum`: spectra, the foreign numerics, cross-fade.
- `Bands`: the 32-band onset profile, as corrected and as written.
- `Warp`: the control state of the main loop (tick, onset credit, read/write cursors) and its invariant and termination measure.
- `Stretch`: the stretcher itself.
- `Mix`: the mixing tail.
- `Process`: the end-to-end audio path.

Behaviour the model follows exactly as the code has it:

- A stretch factor of 0 divides by zero (line 89). A negative one has three outcomes:
  - when n·stretch ≤ -1, `np.zeros` at line 98 is given a negative length and raises;
  - when -1 < n·stretch < 0 and n > window + window/2, the loop at line 107 runs forever, because a negative tick increment never brings the tick back to 1, so nothing after the first frame is fetched and the read cursor stops before `n - window`;
  - otherwise the output is empty.

  `Stretch.Paulstretch` therefore requires `stretch > 0`. `Process.ProcessAudio` reports the zero case, which arises from an empty voice, as `DivisionByZero`.
- An input no longer than one window is not processed as a single frame. The loop at line 107 never runs, and the output is all zeros.
- The loop stops once the read cursor reaches `n - window`. It does not keep synthesising until the output is full. Every output sample after the last chunk written stays silent, including the last `L mod (window/2)` samples.

## Model

| member | source | states |
|---|---|---|
| Window.WindowSize | backend/main.py:52-55 | the window is even, at least 16, and the largest even number not above max(16, int(seconds*rate)) |
| Window.MakeWindow | backend/main.py:52-74 | the window is exactly twice the half window, and the Hann and inverse tables have the window's and half window's lengths |
| Window.EndSize | backend/main.py:60-62 | the fade length is int(rate*0.05), raised to 16 when smaller |
| Window.FadeOut | backend/main.py:65-66 | inputs no longer than the fade are untouched; otherwise the samples before the last e are kept and the last e are multiplied by the linear ramp from 1 to 0 |
| Window.FadeGainBounds | backend/main.py:66 | the ramp starts at exactly 1, ends at exactly 0 and stays in [0, 1] |
| Window.FadeNeverAmplifies | backend/main.py:65-66 | no faded sample is louder than the original |
| Window.FadeSilencesLastSample | backend/main.py:65-66 | when the fade applies, the last input sample becomes 0 |
| Window.HannVanishesAtEnds | backend/main.py:69 | given cos(0) = cos(2π) = 1, the Hann window is zero at its first and last sample |
| Samples.Clip | backend/main.py:196 | the result is in [-1, 1], equals the input inside it, and is the nearer bound outside |
| Samples.Trunc | backend/main.py:52 | Python's int() truncates toward zero from either side |
| Spectrum.InterpolateIsConvex | backend/main.py:170-172 | for a weight in [0, 1], every cross-faded bin lies between the previous and the current bin; weight 1 gives the current spectrum, weight 0 the previous |
| Bands.BandOf | backend/main.py:136-142 | a corrected band is a nonempty bin range below the half window, and it equals the band as written whenever the half window is at least 32 |
| Bands.AsWrittenBounds | backend/main.py:137-142 | as written, both band ends lie in [0, H), and for H >= 32 the upper end is uncapped and not below the lower end |
| Bands.BandsPartition | backend/main.py:136-149 | for H >= 32 the 32 bands tile the bins 0..H-1 with no gap or overlap |
| Bands.BandsOrdered | backend/main.py:136-142 | a later band lies strictly above an earlier one |
| Bands.BandContaining | backend/main.py:136-149 | every bin below H lies in exactly one band |
| Bands.BandAverageWithin | backend/main.py:144-149 | a band value is a true average over bins and channels, so it lies between the smallest and the largest magnitude it covers |
| Bands.SumAbs | backend/main.py:155-158 | the profile energy is non-negative, and zero for an all-zero profile |
| Bands.OnsetCriterion | backend/main.py:155-165 | an onset fires exactly when the current energy exceeds level times the previous one; when the previous energy is at most 1e-10 it fires exactly when level < 1 |
| Bands.MinimumWindowMutesOnsets | backend/main.py:137-165 | with the 16-sample window, band 4 as written is empty, so its average is NaN; every onset score is then 1.0, and no level of 1 or more ever fires |
| Bands.Profile | backend/main.py:134-149 | the profile has 32 entries, and entry i is the average magnitude over the bins of corrected band i and over all channels |
| Bands.ProfileWithin | backend/main.py:144-149 | when every magnitude lies in [lo, hi], so does every band of the profile |
| Bands.OnsetScore | backend/main.py:160-163 | the score is non-negative; over a previous energy above 1e-10 it exceeds 1 exactly when the energy grew and is 0 exactly when the current energy is 0; otherwise it is 1.0 |
| Bands.EmptyBandIndex | backend/main.py:137-142 | for every half window H from 8 to 30 there is a band whose upper end as written is one below its lower end |
| Bands.SmallWindowsMuteOnsets | backend/main.py:137-165 | for every H from 8 to 30 the profile as written holds a NaN, so every onset score is 1.0 whatever the spectra, and no level of 1 or more ever fires |
| Bands.WideWindowsAgree | backend/main.py:137-149 | for H >= 31 every band of the profile as written is finite and equal to the corrected one |
| Bands.MinimumWindowDetectsOnsets | backend/main.py:144-165 | with corrected bands and the same window, a hundredfold rise of the magnitudes scores 100 and fires at the default level 10 |
| Warp.Initial | backend/main.py:85-99 | the loop starts fetching, with zero tick, zero credit and both cursors at 0 |
| Warp.Increment | backend/main.py:89-91 | the tick increment lies in (0, 1]; it is the reciprocal of the stretch when stretching, and exactly 1 when compressing |
| Warp.SnapEffect | backend/main.py:165-167 | an onset on a fetching iteration sets the tick to 1 and adds exactly 1 credit; otherwise nothing changes |
| Warp.CrossFadeWeights | backend/main.py:170-172 | both cross-fade weights, tick and 1 - tick, lie in [0, 1] |
| Warp.AdvanceEffect | backend/main.py:208-215 | with no credit the tick rises by the full increment; with credit it rises by half the increment and the credit drops by that half, never below 0 |
| Warp.WrapEffect | backend/main.py:217-219 | a tick of 1 or more wraps back into [0, 1) and triggers the next fetch, and only then; credit and cursors are untouched |
| Warp.StepCursors | backend/main.py:199-205 | per iteration the read cursor advances by half a window exactly when a frame was fetched, and the write cursor exactly when a chunk fits |
| Warp.Step | backend/main.py:165-219 | one iteration moves the read cursor by half a window exactly on a fetch and the write cursor exactly when a chunk fits; the credit never goes negative, and it never grows without an onset on a fetch |
| Warp.StepPreservesValid | backend/main.py:107-219 | every iteration keeps the loop invariant: tick in [0, 1), credit >= 0, and both cursors half-window multiples, the write cursor inside the output |
| Warp.OnsetForcesFetch | backend/main.py:165-219 | after an iteration that detected an onset, the next iteration fetches; its tick is half the increment and the credit has grown by 1 minus that half |
| Warp.WriteCursorCount | backend/main.py:199-201 | after k iterations the write cursor is h·min(k, L div h); it stays within L, and the next chunk fits exactly while k < L div h |
| Warp.StepDecreases | backend/main.py:107-219 | each iteration strictly lowers (remaining input, phase, tick budget) lexicographically, so the loop terminates for any positive stretch |
| Stretch.OutputLength | backend/main.py:97 | the output length is n·stretch rounded down |
| Stretch.Tile | backend/main.py:41-45 | a mono input becomes two identical copies of itself, and a multi-channel input is kept as is |
| Stretch.Configure | backend/main.py:41-98 | the configuration carries the input length, the window of WindowSize, the output length int(n·stretch), the tick increment and the onset level; its channels are the tiled input, each with the fade-out, and a mono input gives two identical faded channels |
| Stretch.Analysis | backend/main.py:114-149 | a fetching iteration moves the current spectra and profile into the previous slots, transforms the Hann-windowed frame at the read cursor, and takes the profile of its magnitudes; a non-fetching iteration changes nothing |
| Stretch.AnalysedProfileWithin | backend/main.py:131-149 | when every magnitude of the fetched frame lies in [lo, hi], so does every band of the new profile |
| Stretch.OnsetOf | backend/main.py:152-165 | an onset fires only on a fetch; then, over a previous energy above 1e-10, exactly when the profile energy grew more than level times, and otherwise exactly when level < 1 |
| Stretch.OnsetOfAnalysis | backend/main.py:114-165 | the onset test compares the profile just fetched with the profile of the frame fetched before it, and never fires between fetches |
| Stretch.Synthesis | backend/main.py:170-184 | each channel of the new frame is the resynthesis of the spectra cross-faded at the tick, times the Hann window; at tick 1 that is the current spectrum, at tick 0 the previous one |
| Stretch.CrossFadeEnds | backend/main.py:170-172 | a cross-fade at weight 1 is the current spectra and at weight 0 the previous ones |
| Stretch.OverlapAdd | backend/main.py:186-196 | each output sample is the clipped, demodulated sum of the new frame's first half and the previous frame's second half, so it is in [-1, 1] |
| Stretch.Emit | backend/main.py:199-201 | a chunk that fits lands at the write cursor, and silence after it is kept; one that does not fit changes nothing; no sample outside the chunk changes |
| Stretch.Render | backend/main.py:166-219 | on an analysed engine, the control state takes one Warp.Step with its onset, the spectra and profiles are kept, the new frame is the Synthesis at the snapped tick, and the output gets the overlap-added chunk at the write cursor and nothing else |
| Stretch.Iterate | backend/main.py:107-219 | one iteration moves the control state by exactly one Warp.Step with the onset of the analysed frame; it keeps the analysed spectra and profiles, stores the frame Synthesis makes at the snapped tick, and writes the overlap-add of that frame and the previous one at the write cursor and nothing else |
| Stretch.Restore | backend/main.py:221-225 | a mono input gets the first channel back, and a multi-channel input gets all channels; every sample in [-1, 1] stays so |
| Stretch.Run | backend/main.py:106-219 | the loop ends with the read cursor at or past n - window; the write cursor has counted the iterations, and everything from the last whole chunk boundary on is silent |
| Stretch.Paulstretch | backend/main.py:24-225 | the output has the input's layout and channel count, length int(n·stretch), and every sample in [-1, 1]; it is silent after the last chunk written, and all silent when the input fits in one window |
| Mix.Fit | backend/main.py:262-272 | trimming keeps the first n samples; padding appends zeros |
| Mix.FitRoundTrip | backend/main.py:262-272 | fitting to the current length is the identity, and padding then trimming back gives the original |
| Mix.MatchLength | backend/main.py:262-272 | every channel is fitted to n samples, and the layout is kept |
| Mix.Amplify | backend/main.py:277 | every sample is multiplied by the gain, and the shape is kept |
| Mix.AmplifyInverse | backend/main.py:277 | a nonzero gain is undone by its reciprocal |
| Mix.MatchChannels | backend/main.py:284-291 | a multi-channel background under a mono voice becomes its channel mean; a mono background under a multi-channel voice is duplicated; otherwise it is unchanged |
| Mix.DownmixOfCopies | backend/main.py:287 | the mean of identical channels is that channel |
| Mix.DownmixWithin | backend/main.py:287 | a downmixed sample lies between the smallest and the largest channel sample of its frame |
| Mix.ChannelMatchRoundTrip | backend/main.py:284-291 | duplicating a mono background and downmixing it again gives it back |
| Mix.AddSignals | backend/main.py:297 | the sum is sample-wise with numpy broadcasting of one channel; other channel-count mismatches raise |
| Mix.AddSilence | backend/main.py:297 | adding a silent background of the voice's shape returns the voice |
| Mix.Peak | backend/main.py:300 | the peak bounds every |sample| and is attained by one when there is any sample |
| Mix.Normalise | backend/main.py:300-303 | an empty mix raises; a peak of at most 1 leaves the mix unchanged; otherwise every sample is divided by the peak |
| Mix.NormalisedPeak | backend/main.py:300-303 | after normalisation the peak is at most 1, and exactly 1 if it was above 1 |
| Mix.NormaliseIdempotent | backend/main.py:300-303 | normalising twice is normalising once |
| Mix.MixTail | backend/main.py:262-303 | a mono voice always mixes; a multi-channel voice fails with a shape mismatch exactly when its channel count does not broadcast against the background's, a mono background counting as two channels; the only other failure is an empty voice; a mix has the voice's layout and length and peak at most 1 |
| Mix.MixTailSilentBackground | backend/main.py:262-303 | at gain 0 a background of the voice's layout and channel count contributes nothing: the result is the normalised voice |
| Mix.MixTailWithinFullScale | backend/main.py:262-303 | for a mono voice and background whose sum stays within full scale, every output sample is the voice sample plus the gain times the background sample, the background cut or padded to the voice's length |
| Process.StretchedToVoiceLength | backend/main.py:252-257 | the stretch factor len(voice)/len(background) yields exactly the voice's length |
| Process.ProcessAudio | backend/main.py:251-303 | division by zero exactly when either signal is empty; otherwise the background is stretched to exactly the voice's length, keeping its layout and staying in [-1, 1], and the result is the Mix.MixTail of the voice and that stretched background, so the only other failure is a shape mismatch; success has the voice's layout and length and peak at most 1, and is guaranteed for a mono voice |

## Left out

- Fourier transforms, `np.abs` on complex bins, the random phases and `cos`/`sqrt`: foreign numerics supplied through `Numerics`. Only their output lengths are assumed, together with a positive `sqrtHalf`. The one property that depends on a value is `Window.HannVanishesAtEnds`, which takes cos(0) = cos(2π) = 1 as a hypothesis.
- The numeric values of the Hann and inverse-window tables: they depend on `cos`. Only their lengths, and the Hann end points given cos(0) = cos(2π) = 1, are stated.
- Floating-point rounding: samples are reals. The one NaN path that changes behaviour, the empty band, is modelled in `Bands` with an explicit `Float` type (`Bands.ProfileAsWritten` and the lemmas about it). The stretcher does not take that path; see `Stretch.Iterate` below.
- The decibel-to-factor conversion `10 ** (db / 20)` (line 275): the factor enters as the parameter `gain`.
- Progress printing (lines 101-112) and every `print` of `process_audio`: output only, with no effect on the audio.
- Loading, resampling and writing audio files, and the speech-synthesis and language-model parts of the backend and its HTTP server: I/O and foreign services. `Process.ProcessAudio` receives both signals already at one sample rate.
- The array layout (`.T` at lines 46-47 and 225, and frame-major versus channel-major arrays): `Audio` is a list of channels. The transposes are therefore not modelled, including the one at line 47 that treats a channel-major array with more than two rows as frame-major.
- The in-place fade of line 66, which also rewrites a caller's multi-channel array: the model is pure and fades a copy.
- Bands.Profile: entry i averages the corrected band `Bands.BandOf`. For half windows 8 to 30 the program's profile holds a NaN at line 148 where this one is finite (`Bands.SmallWindowsMuteOnsets`); for H >= 31 the two agree (`Bands.WideWindowsAgree`).
- Stretch.Analysis: the fetched profile is `Bands.Profile`, so for half windows 8 to 30 it is finite where the program's holds a NaN (`Bands.SmallWindowsMuteOnsets`); for H >= 31 the two agree (`Bands.WideWindowsAgree`).
- Process.StretchedToVoiceLength: holds in exact arithmetic only. In floats `int(b * (v / b))` can come out one short, e.g. v = 1 and b = 49 give 0.9999999999999999 and length 0; lines 262-272 then pad the result, which `Mix.MatchLength` models for any length.
- Stretch.Iterate: the onset test uses the corrected bands (`Bands.BandOf`), not the bands as written. For windows of 16 to 60 samples (half windows 8 to 30) the program's profile holds a NaN, and its onset score is 1.0 on every frame (`Bands.SmallWindowsMuteOnsets`). There the model's tick, credit, read cursor and output can differ from the program's. From 62 samples on the two profiles are equal (`Bands.WideWindowsAgree`).
- Stretch.Paulstretch: does not state the content of each written chunk. That content is stated one iteration at a time by `Stretch.Iterate`, which names the analysed spectra, the frame `Stretch.Synthesis` makes, and the overlap-added chunk at the write cursor.
- Stretch.Paulstretch: requires stretch > 0. Zero raises at line 89. A negative stretch either raises at line 98, returns an empty output, or makes the loop at line 107 run forever, as described above.

## Findings

| source | as written | input that shows it | evidently intended | confidence | as-written member | corrected member |
|---|---|---|---|---|---|---|
| backend/main.py:137-148 | for every half window H from 8 to 30 (windows of 16 to 60 samples) some band has ei = si - 1; its average divides 0 by 0, giving NaN, which makes every onset score 1.0 | the minimum window of 16 samples (H = 8): band 4 is si = 1, ei = 0; a hundredfold louder frame still scores 1.0 and no onset fires | every band covers at least one bin, so the onset test works for small windows | not executed | Bands.SmallWindowsMuteOnsets | Bands.MinimumWindowDetectsOnsets |
