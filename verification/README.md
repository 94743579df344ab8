# Doom over a satellite link: a verified model

The repository runs Doom on a satellite, sends the picture down as H.264 over RTP, and takes the
keys of the player up in small packets. This project models the parts of it whose correctness is
hardest to see by reading: the link itself, and the engine code that keeps shared state alive over
long runs. Each file models one source file (or one part of it) in the form that the source has,
classes with fields that methods change, and proves what it is for.

| file | source | main results |
|---|---|---|
| `fips197.dfy`, `aes_tables.dfy`, `aes_words.dfy`, `aes_prng.dfy` | `aes_prng.c` | the table-driven cipher is the one of FIPS 197 (sections 5.1, 5.2); the generator is that cipher in counter mode |
| `sound_cache.dfy` | `i_sdlsound.c` | the linked list refines an LRU list; nothing that plays is ever freed; exactly when a lock leaks |
| `deh_str.dfy`, `printf_format.dfy`, `deh_format.dfy` | `deh_str.c` | the hash table refines "the latest replacement"; nested rehashing ends; what the check of replaced formats is worth, measured against the grammar of printf (ISO/IEC 9899:2011, section 7.21.6.1) |
| `rtp.dfy`, `downlink.dfy`, `receiver.dfy`, `video_link.dfy` | `downlink.c`, `receiver.c` | fragmentation and reassembly are inverse; resynchronisation after loss; exactly when no loss can overrun the reassembly buffer |
| `ring_buffer.dfy` | `ringbuffer.c` | all interleavings of producer and consumer |
| `uplink.dfy` | `uplink.c`, `protocol.h` | the key events say what the last packet said unless the queue has dropped one, and exactly when a packet makes it do so |
| `opl_queue.dfy`, `opl_sdl.dfy` | `opl_queue.c`, `opl_sdl.c` | the heap; the clock keeps up with the samples, and every callback fires in order and within one sample of its time, whatever the callbacks set and rescale, up to a conversion that C leaves undefined |
| `opl3_write_buffer.dfy`, `opl3_envelope.dfy`, `opl3_wave.dfy`, `opl3_resampler.dfy` | `opl3.c` | register writes are applied exactly at their time; exactly when attacks, decays and releases end and a sustain holds, under the clock of the chip; wave forms, drift-free resampling |
| `opl_pitch.dfy`, `opl_voices.dfy`, `opl_driver.dfy` | `i_oplmusic.c` | in every song the two voice lists partition the voices under Doom 1.666 and 1.9, and a song under which Doom 2 1.666 loses them all; every voice stays in tune with its channel, at the pitch that note, bend and tuning add up to |
| `win_midi_events.dfy`, `win_midi_merge.dfy`, `win_midi_rounds.dfy`, `win_midi_stream.dfy`, `win_midi_buffer.dfy` | `i_winmusic.c` | the stream sounds like the one stable merge of the tracks, repeated from its start or its loop point; no tick is lost |
| `d_loop.dfy` | `d_loop.c` | what an update makes of the time that has passed, and every command run exactly `ticdup` times; a tic is run unless the wait gives up |
| `i_glob.dfy` | `i_glob.c` | the matcher decides the glob language exactly when a pattern does not end in two stars and no `?` in it stands without a star before it |

What the environment does is arbitrary throughout: packets are lost, `malloc` fails, clocks jump,
callbacks schedule further callbacks, players join and leave. It appears as parameters, as
arbitrary values, or (for the callbacks of the music code) as a finite script. Counters of 16 and
32 bits that wrap in practice (sequence numbers, frame numbers, AES counters) wrap in the model;
times of 64 bits do not.

Where the code differs from what one would expect of it, the model follows the code:

* `I_SDL_StartSound` locks a sound twice if it was cached at the wanted pitch once it is locked, so
  that the sound is never evicted again (`SoundCache.Cache.StartSound`, `SoundCache.HeldIsNeverEvicted`).
* A short raw NAL unit of type 28 is taken for a fragment and is not delivered as it was sent
  (`VideoLink.TypeTwentyEightIsLost`; the exact condition, in any state of the receiver, is
  `VideoLink.ShortNalDelivered`).
* Doom 2 1.666 can lose every voice of the chip, and then stays silent: a concrete song does it
  (`OplVoices.VoicesCanBeLost`, `OplVoices.LostForGood`), and `OplVoices.RunLosesExactly` says which
  songs do. The drivers of Doom 1.666, which has the same recursion, and of 1.9 never do
  (`OplVoices.VoicesKept`).
* The check of replaced formats protects no format: it finds no conversion in `%`, and so accepts
  it for every string (`DehFormat.NoFormatIsProtected`). Of the replacements that the standard
  allows, it lets through `%*d` for `%d`, `%ld` for `%d` and `%*s` for `%s`
  (`DehFormat.AcceptedButUnsafe`), because it does not see widths and precisions given as `*`, nor
  length modifiers. A replacement can be trusted once it is accepted exactly when it is allowed and
  has no directive (`DehFormat.TrustedExactlyWhen`). Where the directives of two formats agree in
  stars and lengths, what is accepted can be given to printf exactly when both are allowed
  (`DehFormat.AcceptedExactlyWhenSafe`).
* Loss can take the receiver past the end of its 200000-byte buffer, although each NAL unit is
  small: units of 4387 bytes suffice exactly from 135 of them on (`VideoLink.LossOverrunsTheBuffer`;
  for any units that do not look like fragments themselves, `VideoLink.AnyLossOfNalsFits`).
* A change of tempo rescales every delay that is still to come exactly when the music was never paused,
  because the driver passes a clock that goes on during pauses (`OplSdl.DelaysScaleExactlyWhen`). As
  it is made by a callback that is fired, others can be overdue; without a pause, exactly when one is
  by the factor or more, in microseconds, its new time is undefined (`OplSdl.OverdueExactlyWhen`,
  `OplSdl.TempoChangeCanBeUndefined`).
* An attack with a rate of 0, or with a rate so high that it should be instant and that was set when
  it had begun, never ends; nor does a release with a rate of 0 (`Opl3Envelope.AttackReachesFull`,
  `Opl3Envelope.ReleaseReachesSilence`).
* A song with an RPG Maker loop point starts again whether it is to be repeated or not, and at the
  vanilla level from its start (`WinMidiStream.Player.StartAgain`).
* `MatchesGlob` goes past the end of some name exactly when the pattern has a `?` without a star
  before it, and is wrong for some name exactly then or when the pattern ends in two stars
  (`Glob.ReadsPastEndExactlyWhen`, `Glob.RightExactlyWhen`).
* `ReplaceExistingVoice` prefers a second voice only to the voices before it; the comment above it
  promises more (`OplVoices.Victim19Is` says what it does).

## Model

| member | source | states |
|---|---|---|
| AesTablesCorrect.TablesCorrect | satellite/doom/src/aes_prng.c:110-636 | each entry of the eight tables is the substituted byte times the coefficients of its row, in the field of FIPS 197 |
| AesTablesCorrect.SBoxIsAffineOfInverse | satellite/doom/src/aes_prng.c:374-440 | the S-box in the tables is the affine map of the inverse in the field, for every byte |
| AesWords.LsBoxIsSubWord | satellite/doom/src/aes_prng.c:661-665 | the four-table substitution of a key word is SubWord |
| AesWords.NRoundIsRound | satellite/doom/src/aes_prng.c:813-826 | a round by table look-ups on little-endian columns is SubBytes, ShiftRows, MixColumns and AddRoundKey |
| AesWords.LRoundIsLastRound | satellite/doom/src/aes_prng.c:828-840 | the last round is the one without MixColumns |
| AesWords.StarXIsXTime | satellite/doom/src/aes_prng.c:648-648 | the word-wide doubling is multiplication by x in each of the four bytes |
| AesWords.IMixColIsInvMixColumn | satellite/doom/src/aes_prng.c:650-659 | the word-wide inverse column mix is InvMixColumns |
| AesPrng.FirstWord | satellite/doom/src/aes_prng.c:667-708 | the first word of each step of the unrolled key schedule is the word of FIPS 197, section 5.2 |
| AesPrng.MiddleWord | satellite/doom/src/aes_prng.c:710-720 | so is the middle word of a 256-bit key |
| AesPrng.RcoTabIsRcon | satellite/doom/src/aes_prng.c:108-108 | the table of round constants holds the powers of x |
| AesPrng.AesContext.ExpandKey | satellite/doom/src/aes_prng.c:736-788 | for keys of 128, 192 and 256 bits the encryption words are the key expansion of FIPS 197, and the decryption words their mirrored inverse mix; other lengths are refused |
| AesPrng.AesContext.Encrypt | satellite/doom/src/aes_prng.c:842-881 | the encryption of a block is the cipher of FIPS 197, section 5.1, under the key of the context |
| AesPrng.AesContext.MirrorLoop | satellite/doom/src/aes_prng.c:774-788 | the inverse mix of each round key between the first and the last goes to the place of its mirrored round |
| AesPrng.MirrorTwice | satellite/doom/src/aes_prng.c:774-788 | that reversal undoes itself |
| AesPrng.StreamWords | satellite/doom/src/aes_prng.c:906-933 | four counters encrypted one after the other give sixteen words of the stream |
| AesPrng.Prng.Start | satellite/doom/src/aes_prng.c:891-897 | a started generator stands before word 0 of the stream of its key |
| AesPrng.Prng.Generate | satellite/doom/src/aes_prng.c:906-933 | the next block of words is the encryption of the next counters, modulo 2^32 |
| AesPrng.Prng.Random | satellite/doom/src/aes_prng.c:937-955 | the n-th draw is word n of the encrypted counters, and 0 if the generator is off |
| SoundCache.Cache.AllocatedSoundLink | satellite/doom/src/i_sdlsound.c:99-114 | the pointers stay those of a doubly linked list with the sound at its head |
| SoundCache.Cache.AllocatedSoundUnlink | satellite/doom/src/i_sdlsound.c:118-137 | the list without the sound, all else in order |
| SoundCache.EvictedAreOldest | satellite/doom/src/i_sdlsound.c:156-201 | eviction frees unlocked sounds only, and each of them was used before every unlocked sound that stays |
| SoundCache.Cache.FindAndFreeSound | satellite/doom/src/i_sdlsound.c:156-176 | frees the least recently used unlocked sound, and fails only if every sound is locked |
| SoundCache.Cache.ReserveCacheSpace | satellite/doom/src/i_sdlsound.c:182-201 | frees sounds until the new one fits the budget or all are locked, and not one more; no budget frees nothing |
| SoundCache.Cache.AllocateSound | satellite/doom/src/i_sdlsound.c:205-248 | a fresh sound at the head of what eviction left, also when malloc fails in between; null only if all that is left is locked |
| SoundCache.Cache.LockAllocatedSound | satellite/doom/src/i_sdlsound.c:252-265 | one more lock, and the sound becomes the most recently used |
| SoundCache.Cache.UnlockAllocatedSound | satellite/doom/src/i_sdlsound.c:269-279 | the error for a sound released too often is unreachable |
| SoundCache.Cache.GetAllocatedSoundBySfxInfoAndPitch | satellite/doom/src/i_sdlsound.c:284-298 | the first sound of the list with that effect and pitch, or null if there is none |
| SoundCache.Cache.PitchShift | satellite/doom/src/i_sdlsound.c:303-341 | the sound that is copied survives the allocation of its copy |
| SoundCache.Cache.ReleaseSoundOnChannel | satellite/doom/src/i_sdlsound.c:347-368 | the channel lets go of its sound, whose count falls by one; a pitch-shifted sound goes with its last lock |
| SoundCache.CountedHalt | satellite/doom/src/i_sdlsound.c:347-368 | the counts still add up when a channel lets go |
| SoundCache.CountedPlay | satellite/doom/src/i_sdlsound.c:958-975 | the counts still add up when a channel takes over a lock |
| SoundCache.CountedLock | satellite/doom/src/i_sdlsound.c:252-265 | the counts still add up after a lock |
| SoundCache.Cache.CacheSFX | satellite/doom/src/i_sdlsound.c:721-794 | lumps with a bad header or length are refused; a good one ends at the head of the list unless memory ran out |
| SoundCache.Cache.LockSound | satellite/doom/src/i_sdlsound.c:850-864 | the sound is cached, locked and at the head; it succeeds for every cached sound; the other pitches at which it is cached stay the same |
| SoundCache.Cache.StartSound | satellite/doom/src/i_sdlsound.c:913-975 | the channel plays the effect at its pitch if it was cached there, else unshifted if it is not to be shifted, else at its pitch, or unshifted with nothing left to free; one lock is leaked exactly if it was cached at that pitch once locked |
| SoundCache.HeldIsNeverEvicted | satellite/doom/src/i_sdlsound.c:156-201 | a leaked lock keeps its sound in the cache whatever is evicted |
| SoundCache.PlayingIsNeverEvicted | satellite/doom/src/i_sdlsound.c:156-201 | a sound that a channel plays is never freed by eviction |
| SoundCache.Cache.StopSound | satellite/doom/src/i_sdlsound.c:977-988 | only the channel of a valid handle lets go, and no lock leaks |
| SoundCache.Cache.UpdateSound | satellite/doom/src/i_sdlsound.c:1005-1021 | exactly the channels that have finished let go |
| SoundCache.Cache.PrecacheSounds | satellite/doom/src/i_sdlsound.c:820-846 | every invariant of the cache survives any list of sounds, locked ones stay, and the last that can be loaded is loaded unless nothing was left to free |
| DehStr.StrHash | satellite/doom/src/deh_str.c:41-53 | the loop of shifts and subtractions is the hash 31h+c modulo 2^32, started from the first character, with regard to case |
| DehStr.HashIsWeightedSum | satellite/doom/src/deh_str.c:41-53 | it is the sum of the characters times powers of 31, modulo 2^32 |
| DehStr.Insert | satellite/doom/src/deh_str.c:145-166 | a string put into the first free slot after its home is found there, and all others still are |
| DehStr.NotFound | satellite/doom/src/deh_str.c:55-78 | a probe that meets a free slot has seen every slot where the string could be |
| DehStr.HashTable.SubstitutionForString | satellite/doom/src/deh_str.c:55-78 | finds the substitution for a string if there is one; the probe always meets a free slot |
| DehStr.HashTable.DehString | satellite/doom/src/deh_str.c:83-97 | the latest replacement of the string, or the string itself |
| DehStr.HashTable.InitHashTable | satellite/doom/src/deh_str.c:99-108 | an empty table of sixteen slots |
| DehStr.HashTable.IncreaseHashtable | satellite/doom/src/deh_str.c:112-143 | every substitution survives the rehash, although the entry counter is not reset and rehashes can nest; the recursion ends |
| DehStr.HashTable.AddToHashtable | satellite/doom/src/deh_str.c:145-166 | a free slot always exists, and afterwards the new substitution and all others are found |
| DehStr.HashTable.AddStringReplacement | satellite/doom/src/deh_str.c:168-206 | the history of replacements grows by one |
| DehStr.LatestIsReplacement | satellite/doom/src/deh_str.c:83-206 | after a replacement, that string gives the new text and every other string what it gave before |
| DehFormat.NextFormatArgument | satellite/doom/src/deh_str.c:254-298 | the type of the next conversion of a format and where it ends, or the end of the string |
| DehFormat.ScannerSeesKinds | satellite/doom/src/deh_str.c:254-298 | of a format that the standard allows, the scan finds the kind of every conversion, and nothing else of its directives |
| DehFormat.ValidFormatReplacement | satellite/doom/src/deh_str.c:329-365 | accepts a replacement exactly when the scan finds no more conversions in it than in the original, each of a kind that the original allows at that place |
| DehFormat.AcceptedExactlyWhenSafe | satellite/doom/src/deh_str.c:329-365 | for any two formats whose directives have the same stars and lengths: accepted and both allowed by the standard is the same as safe for printf, but for an integer that is to be read as a character |
| DehFormat.AcceptedButUnsafe | satellite/doom/src/deh_str.c:329-365 | three accepted replacements with which printf reads an argument that was not passed, or was passed at another type |
| DehFormat.NoFormatIsProtected | satellite/doom/src/deh_str.c:329-365 | for every format, a malformed replacement is accepted with which printf is undefined |
| DehFormat.ProtectsAmongAllowed | satellite/doom/src/deh_str.c:329-365 | among the replacements that the standard allows, the check keeps an allowed format from every unsafe one exactly when the format has no directive |
| DehFormat.TrustedExactlyWhen | satellite/doom/src/deh_str.c:329-365 | a replacement is safe for every allowed format that it is accepted for exactly when it is allowed and has no directive |
| DehFormat.FormatStringReplacement | satellite/doom/src/deh_str.c:369-384 | the text used is the latest replacement if that is accepted and else the string itself; if it has the same stars and lengths as the string, printf can be given it exactly when the standard allows both |
| Rtp.HeaderRoundTrip | satellite/downlink.c:49-66 | the receiver reads back the marker, sequence number and timestamp that were packed |
| Downlink.Sender.SendFragments | satellite/downlink.c:120-175 | the loop over fragments sends the packets of the specification and steps the sequence number modulo 2^16 |
| Downlink.Sender.SendNals | satellite/downlink.c:87-192 | all packets of all NAL units, in order; a failed send stops there |
| Receiver.Poller.HandlePayload | ground/receiver.c:260-345 | one packet changes the 200000-byte buffer and the deliveries as the specification of reassembly says, and passes the end of the buffer exactly when that says so |
| Receiver.Poller.Poll | ground/receiver.c:229-348 | all datagrams are fed in order and their bytes are counted; the end of the buffer is passed exactly when the specification says so |
| VideoLink.RoundTrip | satellite/downlink.c:87-192 | without loss, from any receiver state, every NAL unit is delivered, in order and in the form expected, and the buffer holds it |
| VideoLink.Resynchronises | ground/receiver.c:285-343 | whatever was lost or received before, as long as it fits the buffer, a NAL unit all of whose packets arrive is delivered intact and in its turn |
| VideoLink.OutputsAreDeliveries | ground/receiver.c:285-343 | what is delivered is exactly what the parts of a reception deliver, in order |
| VideoLink.ShortNalDelivered | ground/receiver.c:285-343 | in any state a short NAL unit is delivered exactly when it is in Annex B form, of a single-NAL type, or restored by the bytes that happened to be in the buffer |
| VideoLink.TypeTwentyEightIsLost | ground/receiver.c:285-343 | a concrete short unit of type 28 that is not |
| VideoLink.PacketsNumbered | satellite/downlink.c:87-192 | every packet is at most 1472 bytes, numbers are consecutive modulo 2^16, the marker is on the last packet only |
| VideoLink.LongNalFragments | satellite/downlink.c:120-175 | a long unit takes two fragments or more, S and E are never together (RFC 3984, section 5.8), and no byte is lost |
| VideoLink.BufferSuffices | ground/receiver.c:285-343 | without loss no write passes the end of the buffer exactly when no fragmented unit is larger than it |
| VideoLink.AnyLossFits | ground/receiver.c:285-343 | for any packets and any state, no loss takes a write past the end of the buffer exactly when the furthest write that one pass over the packets finds stays inside |
| VideoLink.AnyLossOfNalsFits | ground/receiver.c:285-343 | for the packets of any units that do not look like fragments themselves, exactly when the sizes of the units say so |
| VideoLink.TwoFragmentsAreSafe | ground/receiver.c:305-308 | units of one or two fragments are safe, however many there are |
| VideoLink.MiddlesPileUp | ground/receiver.c:305-308 | units of three fragments can fill the buffer by one fragment each, and no loss fills it further |
| VideoLink.LossOverrunsTheBuffer | ground/receiver.c:305-308 | some loss of units of 4387 bytes passes the end of the buffer of an idle receiver exactly when there are 135 or more |
| RingBuffer.NextInv | satellite/ringbuffer.c:112-204 | every atomic step of either thread keeps the invariant |
| RingBuffer.RunsAreSafe | satellite/ringbuffer.c:112-204 | in every run the frames read are an unbroken prefix of those written, numbered modulo 2^32, and no slot is written while it is read |
| RingBuffer.DropsOnlyWhenFull | satellite/ringbuffer.c:112-169 | a frame is dropped exactly when three are outstanding |
| RingBuffer.FailsOnlyWhenEmpty | satellite/ringbuffer.c:181-204 | a read fails exactly when no published frame is unread |
| RingBuffer.StatusCycle | satellite/ringbuffer.c:112-204 | each slot goes round EMPTY, WRITING, READY, READING and never another way |
| InputPacket.PackThenUnpack | common/include/protocol.h:78-97 | unpacking undoes packing |
| InputPacket.UnpackThenPack | common/include/protocol.h:78-97 | packing undoes unpacking |
| InputPacket.BigEndianFields | common/include/protocol.h:88-97 | the fields stand in network byte order |
| Uplink.TracksStep | satellite/uplink.c:142-162 | the event for one key brings the log of events from the old bit to the new one |
| Uplink.LastEvent | satellite/uplink.c:69-93 | the last event of a log can only repeat a key that is in that state, so no edge is ever suppressed |
| Uplink.KeyQueue.EnqueueKeyEvent | satellite/uplink.c:69-115 | an event is stored, or suppressed as a repetition of the last one, or dropped because 63 wait |
| Uplink.KeyQueue.ProcessBit | satellite/uplink.c:142-162 | an edge of a key is never suppressed, whatever the clock says |
| Uplink.KeyQueue.ProcessWeapon | satellite/uplink.c:168-182 | a new weapon is one press, which only the same press before it can suppress |
| Uplink.WeaponKeyIsDigit | satellite/uplink.c:168-182 | the press is the digit of the new weapon, and there is none exactly if the weapon is the same or none |
| Uplink.EveryBitCounts | common/include/protocol.h:55-70 | the keys and the weapon determine the whole bit field |
| Uplink.KeyQueue.Receive | satellite/uplink.c:254-281 | a packet adds exactly the edges between its bits and the previous ones, in order; an event is dropped exactly when they do not all fit the 63 places |
| Uplink.KeyQueue.Poll | satellite/uplink.c:234-284 | unless the queue overflowed, the events add up to the last complete packet; it does not if there is room for fourteen events of each packet; short datagrams are ignored, long ones cut |
| Uplink.KeyQueue.PopKey | satellite/uplink.c:286-302 | first in, first out |
| Uplink.DrainedShowsLastPacket | satellite/uplink.c:234-302 | once the game has read everything, the keys it holds are those of the last packet that got through |
| OplQueue.RootIsMin | satellite/doom/opl/opl_queue.c:192-202 | in heap order no entry is due before the root |
| OplQueue.UpStep | satellite/doom/opl/opl_queue.c:83-105 | moving the hole up keeps the order and the entries |
| OplQueue.DownStep | satellite/doom/opl/opl_queue.c:141-184 | moving the hole down to the smaller child keeps the order and the entries |
| OplQueue.Queue.Push | satellite/doom/opl/opl_queue.c:65-112 | heap order, and one entry more; a full queue stays as it is |
| OplQueue.Queue.Pop | satellite/doom/opl/opl_queue.c:114-190 | heap order, and one entry less, which none of the others is due before |
| OplQueue.Queue.NextHole | satellite/doom/opl/opl_queue.c:141-177 | the smaller child, if one is due before the entry that sinks |
| OplQueue.Queue.Peek | satellite/doom/opl/opl_queue.c:192-202 | the earliest time of the queue, 0 if it is empty |
| OplQueue.RescaleKeepsOrder | satellite/doom/opl/opl_queue.c:204-215 | dividing offsets by a positive factor keeps their order |
| OplQueue.RescaleIsQuotient | satellite/doom/opl/opl_queue.c:204-215 | the new offset is the whole part of the quotient |
| OplQueue.Queue.AdjustCallbacks | satellite/doom/opl/opl_queue.c:204-215 | every time whose quotient can be converted is rescaled in its place; exactly if all can, the result is defined, and the heap order stays |
| OplSdl.RoundingReaches | satellite/doom/opl/opl_sdl.c:113-213 | rounding up to samples and down to microseconds reaches the time, and passes it by less than one sample |
| OplSdl.FewerFallShort | satellite/doom/opl/opl_sdl.c:205-216 | one sample less does not reach it |
| OplSdl.LedgerFire | satellite/doom/opl/opl_sdl.c:136-158 | firing the earliest callback keeps the order of firing and the account of all callbacks |
| OplSdl.Mixer.AdvanceTime | satellite/doom/opl/opl_sdl.c:113-161 | nothing due is left waiting, nothing fires too soon, each callback fires once and in order, also when callbacks set and rescale others; paused time does not count |
| OplSdl.Mixer.SetCallback | satellite/doom/opl/opl_sdl.c:467-474 | the callback is due after that much unpaused time, if the queue has room |
| OplSdl.DelaysScaleExactlyWhen | satellite/doom/opl/opl_sdl.c:498-503 | all delays to come are divided by the factor, without an undefined conversion, exactly when there was no pause |
| OplSdl.OverdueExactlyWhen | satellite/doom/opl/opl_sdl.c:498-503 | without a pause, any delay is, exactly if it is not overdue by the factor or more |
| OplSdl.LongDelaysScaleExactlyWhen | satellite/doom/opl/opl_sdl.c:498-503 | all delays longer than the pauses are, exactly when there was no pause or the factor is 1 |
| OplSdl.TempoChangeCanBeUndefined | satellite/doom/opl/opl_sdl.c:113-161 | at 44100 samples per second a callback can be overdue by 20 microseconds while another one changes the tempo, which is undefined for every factor up to 20 |
| OplSdl.Mixer.AdjustCallbacks | satellite/doom/opl/opl_sdl.c:498-503 | also while callbacks are fired and others are overdue: what is left of each delay after the change, and exactly when that is undefined; otherwise the queue and its account stay consistent |
| OplSdl.Mixer.MixCallback | satellite/doom/opl/opl_sdl.c:181-230 | the buffer is filled exactly; the clock moves by the time of the samples, less than one microsecond short for each round; every callback fires less than one sample late, up to an undefined change of the tempo; there is none if the tempo changes only in music that was never paused and by a sample or more; if it does not change, every waiting callback whose time has come was fired |
| OplSdl.Mixer.MixSome | satellite/doom/opl/opl_sdl.c:199-228 | one round moves the clock by the time of its samples, counts it as paused or not, leaves nothing due waiting, and fires a callback unless the buffer is full |
| OplSdl.NoneIsForgotten | satellite/doom/opl/opl_sdl.c:136-158 | while callbacks are only set and fired, each that waited waits still or was fired |
| OplSdl.MovedOn | satellite/doom/opl/opl_sdl.c:113-213 | a round adds less than one microsecond to what the clock is short of |
| Opl3WriteBuffer.EveryWriteOnce | satellite/doom/opl/opl3.c:1164-1366 | in every run each write is applied once and in the order of issue, or waits; times grow by two at least |
| Opl3WriteBuffer.AppliedInTime | satellite/doom/opl/opl3.c:1164-1175 | a waiting write is applied in the very sample of its time |
| Opl3WriteBuffer.IssueTimely | satellite/doom/opl/opl3.c:1340-1366 | buffering a write keeps this; its time is the earliest that is allowed, and the sample count never goes back and jumps only on overflow |
| Opl3WriteBuffer.WriteBuffer.WriteRegBuffered | satellite/doom/opl/opl3.c:1340-1366 | the ring of 1024 slots does what the queue of writes does |
| Opl3WriteBuffer.WriteBuffer.ApplyDue | satellite/doom/opl/opl3.c:1164-1175 | so does the loop at the end of a sample, which applies one write at most |
| Opl3Envelope.IncStepsAverage | satellite/doom/opl/opl3.c:157-162 | over four samples the low bits of a rate add up to themselves |
| Opl3Envelope.LevelInRange | satellite/doom/opl/opl3.c:450-496 | the level stays in nine bits, so that the last mask discards nothing |
| Opl3Envelope.AttackFalls | satellite/doom/opl/opl3.c:465-474 | an attack gets louder in exactly its active steps |
| Opl3Envelope.OthersRise | satellite/doom/opl/opl3.c:475-494 | the other stages get quieter in exactly their active steps and end in silence |
| Opl3Envelope.Chip.MoveClock | satellite/doom/opl/opl3.c:1127-1162 | the clock of the envelopes, with its 36-bit timer and the sample after its overflow |
| Opl3Envelope.SoonActive | satellite/doom/opl/opl3.c:402-446 | at every rate but 0, of any 32768 samples in a row one at least moves the envelope |
| Opl3Envelope.SlowRateIsExact | satellite/doom/opl/opl3.c:402-446 | at a rate r below 48, exactly 4 + r % 4 of any 2^(15 - r / 4) samples in a row move the envelope, up to the overflow of the timer |
| Opl3Envelope.FastRateIsExact | satellite/doom/opl/opl3.c:402-446 | from 52 on every sample does, by shifts that add up to r - 48 in four samples, 12 at most |
| Opl3Envelope.KeyOnStartsAttack | satellite/doom/opl/opl3.c:375-384 | a key that is pressed starts an attack, at full volume exactly if the registers make it instant, and else at its level |
| Opl3Envelope.AttackReachesFull | satellite/doom/opl/opl3.c:360-505 | under the clock of the chip, a held key reaches full volume exactly when its rate is not 0 and not in the range that is instant, and then within a known time |
| Opl3Envelope.DecayComesToSustain | satellite/doom/opl/opl3.c:360-505 | a held decay comes to its sustain level exactly when it is there, or below it with a rate other than 0, and then within a known time |
| Opl3Envelope.SustainHoldsExactlyWhen | satellite/doom/opl/opl3.c:360-505 | a held key keeps its level for ever exactly when the operator is a sustained one or its release rate is 0, and else is silent from a known time on |
| Opl3Envelope.ReleaseReachesSilence | satellite/doom/opl/opl3.c:360-505 | under the clock of the chip, a released key falls silent and stays so exactly when its rate is not 0 or it is all but silent, and then within a known time |
| Opl3Envelope.Slot.EnvelopeCalc | satellite/doom/opl/opl3.c:360-505 | one step of level and stage, the one that these runs are made of, and an attenuation of at most 1013 |
| Opl3Envelope.OutLevelParts | satellite/doom/opl/opl3.c:369-370 | total level counts four for each step, key scaling nothing, a half, a quarter or all |
| Opl3Wave.ExpKeepsOrder | satellite/doom/opl/opl3.c:184-191 | the power table with its shift never rises |
| Opl3Wave.SlotRange | satellite/doom/opl/opl3.c:184-339 | every output of the eight wave forms is in -4085 to 4084 |
| Opl3Wave.EnvelopeAttenuates | satellite/doom/opl/opl3.c:184-339 | a higher envelope is never louder and never changes the sign |
| Opl3Wave.SineRises | satellite/doom/opl/opl3.c:193-211 | the first wave form rises over its first quarter |
| Opl3Wave.SineMirrors | satellite/doom/opl/opl3.c:193-211 | it falls as it rose, and its second half is the one's complement of the first |
| Opl3Wave.HalfSines | satellite/doom/opl/opl3.c:213-259 | forms 1 to 3 are the first half of the sine, that half twice, and its rising quarters |
| Opl3Wave.FastSines | satellite/doom/opl/opl3.c:262-302 | forms 4 and 5 are the sine at twice the speed, with and without its sign, and then silence |
| Opl3Wave.Square | satellite/doom/opl/opl3.c:305-313 | form 6 is a square as high as any form gets |
| Opl3Wave.Decays | satellite/doom/opl/opl3.c:316-327 | form 7 starts at that height, halves every 32 steps, and its second half is the complement of the first, backwards |
| Opl3Wave.EnvelopeHalves | satellite/doom/opl/opl3.c:184-191 | 32 more of the envelope halve the output of every form |
| Opl3Wave.MixChannel | satellite/doom/opl/opl3.c:1063-1071 | four outputs add up in 16 bits without overflow |
| Opl3Wave.ClipSample | satellite/doom/opl/opl3.c:1033-1044 | the nearest 16-bit value |
| Opl3Resampler.InterpolateBetween | satellite/doom/opl/opl3.c:1187-1190 | an output lies between the two chip samples around it |
| Opl3Resampler.InterpolateIsLinear | satellite/doom/opl/opl3.c:1187-1190 | it is the point of the line between them, but for less than one unit |
| Opl3Resampler.LagsExactly | satellite/doom/opl/opl3.c:1178-1192 | at interpolation the chip samples and the rest are quotient and remainder of 1024k by the ratio |
| Opl3Resampler.Resampler.GenerateResampled | satellite/doom/opl/opl3.c:1178-1192 | by the k-th call exactly floor(1024k / ratio) chip samples were generated, without drift |
| OplVoices.VoicesKept | satellite/doom/src/i_oplmusic.c:416-1262 | in every song Doom 1.666 and 1.9 keep each voice in one of the two lists, and Doom 2 1.666 does, or has lost them all |
| OplVoices.StepOk | satellite/doom/src/i_oplmusic.c:416-1262 | one note, key-off or bend keeps this, and under Doom 1.666 the two parts of a note side by side |
| OplVoices.VoicesCanBeLost | satellite/doom/src/i_oplmusic.c:416-457 | a song of eleven events under which Doom 2 1.666, from its start, loses all voices |
| OplVoices.LostForGood | satellite/doom/src/i_oplmusic.c:382-410 | a driver that has lost its voices never gets them back |
| OplVoices.AllLostExactly | satellite/doom/src/i_oplmusic.c:416-457 | a release loses all voices exactly when every voice from the index on is a second part |
| OplVoices.OffLosesExactly | satellite/doom/src/i_oplmusic.c:693-724 | a key-off loses all voices of Doom 2 1.666 exactly when some voice plays the key, is a second part, and has only second parts after it |
| OplVoices.LosesAllExactly | satellite/doom/src/i_oplmusic.c:416-1262 | any event does exactly then, or when a voice given up for a note has only second parts from it on |
| OplVoices.RunLosesExactly | satellite/doom/src/i_oplmusic.c:416-1262 | a song loses them exactly when one of its events does |
| OplVoices.NoneIsLeft | satellite/doom/src/i_oplmusic.c:693-724 | after a key-off no allocated voice plays that key on that channel, under every driver |
| OplVoices.ExactlyThoseFreed | satellite/doom/src/i_oplmusic.c:693-724 | under Doom 1.666 and 1.9 exactly those voices are freed, and both lists keep their order |
| OplVoices.Victim19Is | satellite/doom/src/i_oplmusic.c:731-757 | the last voice of the highest channel, among those from the last second part on |
| OplVoices.VictimDoom1Is | satellite/doom/src/i_oplmusic.c:762-779 | the first voice of the highest channel |
| OplVoices.SearchDoom2Is | satellite/doom/src/i_oplmusic.c:781-802 | the first of the lowest priority among the channels not below the new one |
| OplVoices.VictimDoom2Is | satellite/doom/src/i_oplmusic.c:781-802 | so is the voice that is given up, among all but the last three, and the first of all if there is none |
| OplVoices.VictimOk | satellite/doom/src/i_oplmusic.c:762-779 | Doom 1.666 never discards a first part without the second part before it |
| OplVoices.RoomOk | satellite/doom/src/i_oplmusic.c:1012-1060 | as many voices are free as the note is given, unless Doom 2 1.666 has lost them all |
| OplVoices.NoteSounds | satellite/doom/src/i_oplmusic.c:961-1073 | under Doom 1.666 and 1.9 a note always sounds, with both parts if there are two voices for them |
| OplVoices.SelectCounts | satellite/doom/src/i_oplmusic.c:1222-1262 | the two parts of the list hold each entry of it once |
| OplDriver.Driver.constructor | satellite/doom/src/i_oplmusic.c:607-630 | all voices are free |
| OplDriver.Driver.GetFreeVoice | satellite/doom/src/i_oplmusic.c:382-410 | the voice that has been free for longest moves to the end of the allocated ones |
| OplDriver.Driver.ReleaseVoice | satellite/doom/src/i_oplmusic.c:416-457 | the arrays follow the lists, the recursion ends, and a free voice has no channel |
| OplDriver.Driver.NotesOff | satellite/doom/src/i_oplmusic.c:693-724 | the loop over the shifting array releases what the specification says |
| OplDriver.Driver.VictimOfDoom2 | satellite/doom/src/i_oplmusic.c:781-802 | the search over the voices finds the one of the specification |
| OplDriver.Driver.MakeRoom | satellite/doom/src/i_oplmusic.c:1012-1060 | each driver discards the notes of the specification, and none without need |
| OplDriver.Driver.VoiceKeyOn | satellite/doom/src/i_oplmusic.c:907-959 | one free voice, if there is one, is programmed and tuned for that part of the instrument, and no other voice changes |
| OplDriver.Driver.StartNote | satellite/doom/src/i_oplmusic.c:1024-1071 | the first free voices play the parts of the instrument, the second part last under 1.9 and first before it |
| OplDriver.Driver.KeyOnEvent | satellite/doom/src/i_oplmusic.c:961-1073 | a note of the specification, with the percussion instruments and their range; volume zero is a key-off |
| OplDriver.Driver.PitchBendEvent | satellite/doom/src/i_oplmusic.c:1222-1262 | the voices of the channel are tuned to its new bend and go behind the others, both in their order; all voices stay in tune |
| OplDriver.TunedHeight | satellite/doom/src/i_oplmusic.c:805-879 | what a voice of a note is tuned to, in steps |
| OplDriver.TrackChannelSwaps | satellite/doom/src/i_oplmusic.c:671-689 | channels 9 and 15 change places, and no other does |
| OplPitch.FrequencyForVoice | satellite/doom/src/i_oplmusic.c:805-879 | the loops move the note by whole octaves; the index stays in the table and the octave in three bits |
| OplPitch.OctaveUp | satellite/doom/src/i_oplmusic.c:845-878 | twelve semitones up are the same table entry one octave higher, up to the last octave |
| OplPitch.BendMoves | satellite/doom/src/i_oplmusic.c:843-878 | between the ends of the range, a bend is as many steps up or down, of which an octave has 384 |
| OplPitch.SemitonesMove | satellite/doom/src/i_oplmusic.c:812-843 | a semitone is 32 steps, in the note or in the offset of its part |
| OplPitch.OffsetCounts | satellite/doom/src/i_oplmusic.c:815-824 | a fixed note does not heed the offset, and otherwise only the sum counts |
| OplPitch.OctavesAway | satellite/doom/src/i_oplmusic.c:826-841 | a note outside 0 to 95 sounds as it does whole octaves away, at the nearest octave inside |
| OplPitch.FineTuningMoves | satellite/doom/src/i_oplmusic.c:845-851 | a second part sounds like the first at a tuning of 128, and one step higher for each two more |
| OplPitch.LowestNote | satellite/doom/src/i_oplmusic.c:843-878 | note 0 without a bend is entry 64 of the table |
| OplPitch.BeyondTheRange | satellite/doom/src/i_oplmusic.c:853-878 | below the range the first entry sounds, and above it the last octave again |
| WinMidiEvents.Writer.AddToBufferVanilla | satellite/doom/src/i_winmusic.c:996-1062 | on every path the delay is written once, and a note exactly for a note; tempo and program changes as they are, controllers as the table says, a volume under the slider |
| WinMidiEvents.Writer.AddToBufferStandard | satellite/doom/src/i_winmusic.c:1067-1279 | the same for the two other levels, and nothing but time for a track of another device; a program after the bank of its fallback, an RPN that the level does not know as the one that stands for none; every kind of loop event is written as time alone, and the jump that it asks for is handed on |
| WinMidiEvents.Writer.SendSysExMsg | satellite/doom/src/i_winmusic.c:701-755 | a part level message becomes the volume of its channel, a reset restores all volumes |
| WinMidiEvents.Writer.SendManualVolumeMsg | satellite/doom/src/i_winmusic.c:391-407 | the volume of the channel is remembered and sent under the slider |
| WinMidiEvents.ScaledVolumeIsNearest | satellite/doom/src/i_winmusic.c:396-401 | what is sent is the nearest number to the product of volume and slider, up to 127 |
| WinMidiEvents.ScaledVolumeRises | satellite/doom/src/i_winmusic.c:396-401 | a louder note is never sent quieter |
| WinMidiEvents.Writer.SendEMIDI | satellite/doom/src/i_winmusic.c:822-925 | what is written, and how the devices of the track and its own program and volume change; only the first beat of the track heeds it |
| WinMidiEvents.DevicesAfter | satellite/doom/src/i_winmusic.c:830-869 | a designation adds a device, or all of them; an exclusion takes one away, from all of them if none was designated |
| WinMidiEvents.StandardPlaysVanilla | satellite/doom/src/i_winmusic.c:996-1279 | every controller that vanilla plays is played at the other levels |
| WinMidiEvents.PartChannelOnto | satellite/doom/src/i_winmusic.c:712-725 | every channel has exactly one block number |
| WinMidiEvents.PartLevelIsNoReset | satellite/doom/src/i_winmusic.c:565-696 | no message is both a part level and a reset |
| WinMidiMerge.AdvancePlaying | satellite/doom/src/i_winmusic.c:1385-1447 | playing the earliest event of the lowest track keeps the order, and the clock goes to its tick |
| WinMidiMerge.NextIsDue | satellite/doom/src/i_winmusic.c:1428-1436 | the clock never goes back, also not for a track that ends without an end-of-track event |
| WinMidiMerge.AllEnded | satellite/doom/src/i_winmusic.c:1403-1426 | when every track has ended, what was played is the stable merge |
| WinMidiMerge.MergeIsUnique | satellite/doom/src/i_winmusic.c:1376-1458 | there is only one stable merge of a song |
| WinMidiStream.Player.FindNext | satellite/doom/src/i_winmusic.c:1388-1401 | the lowest of the tracks whose next event is due first |
| WinMidiRounds.CheckRpgLoop | satellite/doom/src/i_winmusic.c:1334-1370 | the loops find whether the song has the controller once and no other of EMIDI |
| WinMidiRounds.RoundsRepeat | satellite/doom/src/i_winmusic.c:1294-1326 | rounds that follow each other are the stable merge, and then again and again what comes after its loop point |
| WinMidiStream.Player.SoundsLikeTheMerge | satellite/doom/src/i_winmusic.c:1376-1458 | at every level, for a song none of whose tracks can be for another device, the notes of the whole stream, at the sums of their delays, are those of the stable merge and its repetitions, for any number of rounds |
| WinMidiStream.Player.PlayEvent | satellite/doom/src/i_winmusic.c:1428-1447 | the ticks written are the ticks that have gone by, and a note is written exactly for a note, unless the level is not vanilla and its track is for another device at that moment |
| WinMidiStream.Player.SetLoopPoint | satellite/doom/src/i_winmusic.c:787-798 | what would be played again is the state of play at this moment |
| WinMidiStream.Player.RestartTracks | satellite/doom/src/i_winmusic.c:1310-1326 | the song starts again and the ticks and notes of the round are kept in the account |
| WinMidiStream.Player.RestartLoop | satellite/doom/src/i_winmusic.c:1294-1305 | the song goes on from its loop point, or its start at the vanilla level, and the account is kept |
| WinMidiStream.Player.StartAgain | satellite/doom/src/i_winmusic.c:1403-1426 | at its end a song that has taken time starts again exactly if it has a loop point of RPG Maker or is to be repeated, and less of it is played already |
| WinMidiStream.Player.FillBuffer | satellite/doom/src/i_winmusic.c:1376-1458 | batches of at most four events, all of them sent; a batch without an event means that the merge is complete and is not to be played again |
| WinMidiStream.Player.StreamIsReadBack | satellite/doom/src/i_winmusic.c:248-385 | everything that a song writes fits the fields of the stream, and is read back from its bytes |
| WinMidiBuffer.EncodeThenParse | satellite/doom/src/i_winmusic.c:248-359 | each event is read back from the bytes that were written for it, and the next one starts on a word |
| WinMidiBuffer.StreamRoundTrip | satellite/doom/src/i_winmusic.c:248-385 | so is a whole stream of events |
| WinMidiBuffer.Buffer.WriteBuffer | satellite/doom/src/i_winmusic.c:228-263 | the bytes are appended, and growing the buffer keeps those before |
| WinMidiBuffer.Buffer.WriteBufferPad | satellite/doom/src/i_winmusic.c:238-243 | zeros up to the next word, within the buffer |
| DLoop.SquashOnce | satellite/doom/src/d_loop.c:642-654 | squashing a command twice is squashing it once; it changes exactly those with a chat character or a special button |
| DLoop.Loop.BuildNewTic | satellite/doom/src/d_loop.c:140-195 | a command is made exactly if the lead is below its limit: 9, 3 when not connected, 5 under old sync |
| DLoop.Loop.BuildTics | satellite/doom/src/d_loop.c:237-246 | as many commands as tics have passed, up to the limit |
| DLoop.Loop.NetUpdate | satellite/doom/src/d_loop.c:204-246 | nothing with singletics; else the clock is taken over, skipped tics are deducted, and a command is made for each tic left, up to the limit |
| DLoop.Loop.OldNetSync | satellite/doom/src/d_loop.c:561-610 | whoever is first in the game keeps the time; another one goes a tic faster unless ahead, and skips one if ahead in the last four calls |
| DLoop.Loop.Decide | satellite/doom/src/d_loop.c:702-730 | how many tics are run under either sync |
| DLoop.Loop.ReceiveTic | satellite/doom/src/d_loop.c:268-294 | the commands of the others go into the slot of their tic; a local one that is still to be run is never overwritten, nor any other slot |
| DLoop.Loop.GetLowTic | satellite/doom/src/d_loop.c:540-555 | never below the tic that is run, and never above what was made or received |
| DLoop.Loop.RunSet | satellite/doom/src/d_loop.c:759-790 | one tic is run for the local player, who is alone in the game when not connected |
| DLoop.Loop.RunDuplicates | satellite/doom/src/d_loop.c:772-789 | the command runs ticdup times, first as built and then squashed; the second error is unreachable |
| DLoop.Loop.WaitForTics | satellite/doom/src/d_loop.c:734-757 | the first error is unreachable, and enough tics are there unless the wait gave up |
| DLoop.Loop.TryRunTics | satellite/doom/src/d_loop.c:676-794 | every command is run in order exactly ticdup times, the lead keeps its bound, and what is complete is run; no tic is run exactly if the wait gave up; when not connected it does not give up if a tic has passed or a command is left, and under new sync it runs every command |
| Glob.LanguageStar | satellite/doom/src/i_glob.c:200-213 | what a star means in the language of a pattern |
| Glob.StaysWithin | satellite/doom/src/i_glob.c:184-227 | the matcher stays within the name if every `?` has a star before it, or one at the start meets a character |
| Glob.ReadsPastEndExactlyWhen | satellite/doom/src/i_glob.c:214-222 | some name takes the matcher past its end exactly when the pattern has a `?` without a star before it |
| Glob.RightExactlyWhen | satellite/doom/src/i_glob.c:184-227 | a pattern is matched right for every name exactly when it does not end in two stars and has no `?` without a star before it |
| Glob.QuestionMarkReadsOn | satellite/doom/src/i_glob.c:214-222 | a name and a pattern for which the matcher reads past the end |
| Glob.MatchesGlob | satellite/doom/src/i_glob.c:184-227 | the loops and the recursion end, with the outcome of the specification |
| Glob.MatchesAnyGlob | satellite/doom/src/i_glob.c:229-241 | the loop gives the first outcome other than no match |
| Glob.FirstFoundIsUnion | satellite/doom/src/i_glob.c:229-241 | for patterns that are matched right, that is a match exactly if the name is in the language of one of them |
| Glob.Partition | satellite/doom/src/i_glob.c:292-314 | what comes before the pivot is left of it, and the rest is not |
| Glob.BeforeIsLexicographic | satellite/doom/src/i_glob.c:292-304 | the order is that of dictionaries: the first place where two names differ decides |
| Glob.SortFilenames | satellite/doom/src/i_glob.c:283-318 | sorted, and a permutation, with nothing outside the segment touched |

## Left out

- AES decryption itself: only its key schedule is built, and nothing in the repository decrypts.
- Sockets, SDL, FFmpeg, x264, threads and Win32: what they do is a log, a parameter or an arbitrary value.
- Weak memory in the frame ring: the atomic operations are taken as sequentially consistent, which is their default.
- Picture contents: a frame of the ring is an opaque value, and so is an H.264 buffer.
- SoundCache.Cache.PitchShift: the float arithmetic that gives the length of the copy is a parameter, and the copied samples are not modelled.
- SoundCache.Cache.CacheSFX: the length after sample-rate conversion is a parameter, and the converted samples are not modelled.
- The flag `sound_initialized`, panning and volume of the sound module: nothing of the cache depends on them.
- DEH_printf and its relatives: they only print what `FormatStringReplacement` returns.
- A second call of `uplink_init`: it does not reset the record of the last event, so that the theorems are about the events since the first one.
- The timers and ports of the OPL, and locking in `opl_sdl.c`.
- OplSdl.Mixer.MixCallback: 64-bit overflow of times (after more than eleven years of delay) is not modelled, and callbacks follow a script of any finite length.
- OplQueue.Queue.AdjustCallbacks: a quotient that C cannot convert to an unsigned number becomes an arbitrary time, after which nothing is said of the queue or of the mixer.
- Phase generation, rhythm mode, channel algorithms and register decoding of the OPL3: table look-ups and bit fields without an invariant of their own.
- Opl3WriteBuffer.WriteBuffer.WriteRegBuffered: the effect of a register write on the chip is its place in the list of applied writes.
- OplDriver.Driver.PitchBendEvent: a restart of the song sets all bends to 0 without tuning the voices that are still held, and is not part of this model.
- OplPitch.FrequencyForVoice: a pitch is the number of an entry of `frequency_curve` and an octave; the frequencies in that table are not modelled.
- SetVoiceVolume, SetVoicePan and the register writes of the voices.
- WinMidiStream.Player.FillBuffer: songs with the loop markers of Final Fantasy or the loops of EMIDI are excluded at the two levels that know them, and so are songs of 2^32 - 1 ticks or more; of songs with an RPG Maker loop point, those are modelled whose tracks all end with an end-of-track event, as the reader of MIDI files sees to.
- WinMidiStream.Player.SoundsLikeTheMerge: for songs with EMIDI track designations, `WinMidiStream.Player.PlayEvent` alone says which events are heard.
- Receiver.Poller.Poll: after a write past the end of the buffer, which C leaves undefined, nothing is said of the receiver but that it happened.
- OplSdl.Mixer.AdjustCallbacks: the factor is a real number; the rounding of the float is not modelled.
- DehFormat.FormatStringReplacement: `%C` and `%S`, flags and widths that the standard leaves undefined for a conversion, and the terminating zero of strings are outside the grammar of formats used.
- `midifile.c`: a track is the sequence of its delays and events.
- WinMidiEvents.Writer.AddToBufferStandard: which fallback instrument `MIDI_CheckFallback` finds is arbitrary.
- DLoop.Loop.TryRunTics: drone mode is excluded, and the wait polls any finite number of times; when connected, whether it gives up depends on what the network delivers.
- DLoop.Loop.ReceiveTic: how far the other players' commands run ahead is up to the server, so that only the local player's commands are shown to be safe from being overwritten.
- Glob.MatchesGlob: characters are compared after ASCII lower-casing; locales and bytes above 127 are not modelled.
- Display, input devices, game configuration, IWAD search and the encoder.
