# Key detection and harmonic search, modelled in Dafny

The program decodes an MP3 file and feeds its audio to a key-finder engine.
It keeps a record of the file with the detected musical key and that key's
Camelot (circle-of-fifths) notation, such as `8A` or `11B`. It also builds
the query string for a search over an index of songs: the search asks for
songs in harmonically compatible keys.

The model has five modules, one per concern of `src/main.rs`:

- `SongKeys` (`song_key.dfy`) models the `SongKey` enumeration with its three tables:
  - `from_key_t`, the decoder from the engine's `i32` code;
  - `to_circle_of_fifths`, the Camelot notation;
  - `compatible_keys`, the harmonic-mixing table.

  Each concrete key is also given two reference coordinates, its tonic pitch class (C = 0 … B = 11) and its mode. The engine's code assignment and the Camelot wheel are both stated as arithmetic on those coordinates, and the tables are proved to agree with that arithmetic.
- `SongMetas` (`song_meta.dfy`) models the `SongMeta` record. Its invariant is that `cofKey` is always the notation of `key`.
- `UrlEncoding` (`url_encoding.dfy`) models `url_encode`. It takes the UTF-8 bytes (RFC 3629) and applies the application/x-www-form-urlencoded byte serializer of the WHATWG URL Standard, section 5.2. The serializer's partner is the standard's percent-decoder, and the two are proved to round-trip.
- `AlgoliaQuery` (`algolia_query.dfy`) models `build_filter_value` and `build_query_string`. Their partner is the form-urlencoded parser of the WHATWG URL Standard, section 5.1, and parsing a built query string is proved to give back exactly its `query` and `filter` pairs.
- `DecodeSession` (`decode_session.dfy`) models the decode loop of `process_mp3_file`.
  - The packet reader is replaced by the sequence of results it yields, and the key-finder engine by an oracle from the planes fed so far to an `i32` code.
  - A ghost log records every engine call.
  - `Process` is the declarative specification: the loop stops at the first event that ends it.
  - `ProcessMp3File` is the loop itself, proved to compute `Process`, and the per-event rules and the handle discipline are proved as lemmas about `Process`.

The model follows these details of the code as written:

- In `compatible_keys`, the `A minor` row is 8B 8A 7A 7B 9A 9B: one wheel step either side of 8A, in both modes, in that order. No empty row, `Unknown` included, contains its own key.
- In `from_key_t`, each pair of adjacent codes (2t, 2t + 1) is the major and the minor of one tonic. Each pair's tonic is a semitone above the previous pair's, starting from A, so codes 0 and 1 are 11B and 8A.
- In `build_filter_value`, each clause names the field `cof_key`.

## Model

| member | source | states |
|---|---|---|
| SongKeys.KeyOf | src/main.rs:84-112 | each tonic and mode names a concrete key with exactly that tonic and mode |
| SongKeys.FromKeyT | src/main.rs:116-156 | a code i in 0..23 decodes to the key with tonic (9 + i/2) mod 12, counted from C, minor exactly when i is odd; a code decodes to `Unknown` exactly when it lies outside 0..23 |
| SongKeys.EngineCodeFromKeyT | src/main.rs:116-156 | every code in 0..23 decodes to a concrete key whose engine code is that same code |
| SongKeys.FromKeyTEngineCode | src/main.rs:116-156 | every concrete key is the decoding of its engine code |
| SongKeys.EngineCodeInjective | src/main.rs:116-156 | distinct concrete keys have distinct engine codes |
| SongKeys.FromKeyTBijective | src/main.rs:116-156 | the decoder is one-to-one on 0..23 and reaches all 24 concrete keys |
| SongKeys.Camelot | src/main.rs:159-199 | a Camelot label is two or three characters and ends in `A` for minor, `B` for major |
| SongKeys.CamelotInjective | src/main.rs:159-199 | distinct wheel numbers or modes give distinct labels |
| SongKeys.ToCircleOfFifths | src/main.rs:159-199 | the notation is `"Unknown"` exactly for `Unknown` |
| SongKeys.NotationIsCamelot | src/main.rs:159-199 | every concrete key is spelled as its wheel number (7·tonic + 8 for major, + 5 for minor, mod 12, 0 read as 12) followed by `B` or `A` |
| SongKeys.WheelTonicInverse | src/main.rs:159-199 | the wheel numbering of each mode is invertible: the tonic is recovered from the number |
| SongKeys.WheelOfTonic | src/main.rs:159-199 | every number 1..12 is the wheel number of some tonic in each mode |
| SongKeys.ToCircleOfFifthsInjective | src/main.rs:159-199 | no two of the 25 values, `Unknown` included, share a notation |
| SongKeys.EveryLabelUsedOnce | src/main.rs:159-199 | each label nA and nB with n in 1..12 is the notation of exactly one key |
| SongKeys.RelativeKeysShareNumber | src/main.rs:159-199 | a major key and its relative minor, nine semitones above, carry the same number with `B` and `A` |
| SongKeys.CompatibleKeys | src/main.rs:203-243 | every row other than `AMin` is empty; the `AMin` row contains `AMin` |
| SongKeys.RowMemberIsNeighbour | src/main.rs:206 | each key of the `AMin` row is within one wheel step of 8A |
| SongKeys.NeighbourIsRowMember | src/main.rs:206 | each key within one wheel step of 8A, in either mode, is in the `AMin` row |
| SongKeys.AMinRowIsWheelNeighbourhood | src/main.rs:206 | the `AMin` row lists six distinct keys, exactly the keys within one wheel step of 8A |
| SongKeys.AMinRowNotations | src/main.rs:206 | the notations of the `AMin` row are, in order, 8B 8A 7A 7B 9A 9B |
| SongMetas.NewSongMeta | src/main.rs:324-330 | the initial record satisfies the invariant, has the file's path, empty artist and title, and key `Unknown` |
| SongMetas.SetKey | src/main.rs:413-414 | an update sets the key and its notation together, keeps the invariant, and leaves path, artist and title unchanged |
| SongMetas.NotationDeterminesKey | src/main.rs:246-255 | in records satisfying the invariant, equal notations mean equal keys |
| UrlEncoding.CharUtf8 | src/main.rs:449-451 | a scalar value is one to four bytes; it is one byte equal to the scalar exactly when ASCII; each length has its lead-byte range, and the other bytes are continuation bytes |
| UrlEncoding.CharUtf8Scalar | src/main.rs:449-451 | the bytes of a character decode back to its scalar value |
| UrlEncoding.Utf8 | src/main.rs:449-451 | a string's bytes number between one and four per character; an ASCII string's bytes are its characters |
| UrlEncoding.Utf8Append | src/main.rs:449-451 | the bytes of a concatenation are the concatenation of the bytes |
| UrlEncoding.Utf8Injective | src/main.rs:449-451 | distinct strings have distinct byte sequences |
| UrlEncoding.SerializeByte | src/main.rs:449-451 | one byte becomes one to three ASCII characters, each an unreserved character, `+` or `%` |
| UrlEncoding.ByteSerialize | src/main.rs:449-451 | the output is ASCII, of between n and 3n characters for n bytes, each an unreserved character, `+` or `%` |
| UrlEncoding.UrlEncode | src/main.rs:449-451 | the output is ASCII, of between n and 12n characters for n input characters, and never contains `&` or `=` |
| UrlEncoding.DecodeSerializedByte | src/main.rs:449-451 | percent-decoding the serialization of a byte consumes exactly that serialization and yields the byte |
| UrlEncoding.DecodeSerialize | src/main.rs:449-451 | percent-decoding the serialization of bytes gives the bytes back |
| UrlEncoding.UrlEncodeRoundTrip | src/main.rs:449-451 | decoding `url_encode(s)` gives the UTF-8 bytes of s |
| UrlEncoding.UrlEncodeInjective | src/main.rs:449-451 | distinct strings have distinct encodings |
| AlgoliaQuery.Join | src/main.rs:455 | joining no parts gives `""`; joining one part gives that part |
| AlgoliaQuery.JoinAppend | src/main.rs:455 | the join of two non-empty lists is their joins with the separator between |
| AlgoliaQuery.FilterClauseIsCamelot | src/main.rs:454 | the clause for a concrete key quotes its Camelot label (wheel number, then `A` or `B`); the clause for `Unknown` quotes the word `Unknown` |
| AlgoliaQuery.FilterClauseInjective | src/main.rs:454 | distinct keys give distinct clauses, so a filter never asks for one key in place of another |
| AlgoliaQuery.BuildFilterValue | src/main.rs:453-456 | no keys give `""`; one key gives exactly its clause |
| AlgoliaQuery.BuildFilterValueAppend | src/main.rs:453-456 | the filter for a + b is the filter for a, then ` OR `, then the filter for b, so the clauses keep input order |
| AlgoliaQuery.BuildFilterValueCons | src/main.rs:453-456 | prepending a key prepends its clause and ` OR ` |
| AlgoliaQuery.AMinFilterValue | src/main.rs:453-456 | the filter for the `AMin` row is the clauses 8B, 8A, 7A, 7B, 9A, 9B joined with ` OR ` |
| AlgoliaQuery.BuildQueryString | src/main.rs:458-465 | the query string holds one `&` when the text is non-empty and none otherwise, and one `=` per pair, since the encoded values contain neither |
| AlgoliaQuery.FilterOnlyRoundTrip | src/main.rs:458-465 | with empty text, parsing the query string gives the single `filter` pair, whose value decodes to the filter's bytes |
| AlgoliaQuery.QueryAndFilterRoundTrip | src/main.rs:458-465 | with non-empty text, parsing gives the `query` pair and then the `filter` pair, with their values decoded |
| AlgoliaQuery.QueryStringRoundTrip | src/main.rs:458-465 | parsing the query string gives the `query` pair when the text is non-empty, then the `filter` pair, each value decoding to the UTF-8 bytes of what was encoded |
| DecodeSession.StopIndex | src/main.rs:333-435 | the loop stops at the first event that is neither skipped nor fed, or at the end of the stream |
| DecodeSession.ExitOn | src/main.rs:337-433 | an event that ends the loop returns the record exactly on a read error; it returns no record exactly on an `f32` buffer of the selected track with no planes; every other ending event panics, never for a missing sample rate |
| DecodeSession.MetaAfter | src/main.rs:410-414 | the record's key is the estimate after the last fed plane, or `Unknown` when nothing was fed; its notation matches; its path is the file's |
| DecodeSession.FeedCallsAt | src/main.rs:386-411 | the engine calls alternate between a feed of the n-th fed plane and an estimate |
| DecodeSession.Process | src/main.rs:296-435 | the session panics for a missing sample rate exactly when the track declares none, and then makes no engine call; every returned record satisfies the invariant and has the file's path |
| DecodeSession.ProcessMp3File | src/main.rs:296-435 | the loop returns or panics exactly as `Process` says, and makes exactly the engine calls `Process` lists |
| DecodeSession.SkippedEventChangesNothing | src/main.rs:366-429 | a packet of another track, or one failing with an I/O or malformed-data error, changes neither the outcome nor the engine calls |
| DecodeSession.FirstEndingEventDecides | src/main.rs:333-435 | the first ending event decides the outcome from the record built so far; the engine calls are the feeds before it and one release |
| DecodeSession.ReadErrorReturnsRecord | src/main.rs:344-347 | a read error other than a reset returns the record holding the estimate after the last fed plane |
| DecodeSession.EndOfStreamReturnsRecord | src/main.rs:344-347 | running out of packets returns the record built from every fed plane |
| DecodeSession.ZeroPlanesReturnsNone | src/main.rs:380-383 | an `f32` buffer of the selected track with no planes returns no record |
| DecodeSession.FatalEventsPanic | src/main.rs:337-433 | a reset, a buffer in another sample format, and any other decode error each panic, each for its own reason |
| DecodeSession.ReturnedRecordIsValid | src/main.rs:411-414 | every returned record satisfies the invariant, has the file's path, and carries the last estimate or `Unknown` |
| DecodeSession.BracketedFeedsKeepDiscipline | src/main.rs:305-308 | create first and once, release last and once, and feed-then-estimate pairs in between |
| DecodeSession.EngineHandleDiscipline | src/main.rs:305-308 | without a sample rate no engine call is made; otherwise every exit from the loop, panics included, follows the handle discipline |
| DecodeSession.FedPlanesComeFromF32Packets | src/main.rs:376-393 | each plane fed is the first plane of a packet of the selected track with an `f32` buffer of at least one plane |
| DecodeSession.FourPacketSession | src/main.rs:371-414 | four `f32` packets of the selected track, then the end of the stream, feed the four planes in order and return the estimate after the last |
| DecodeSession.TransientErrorScenario | src/main.rs:426-429 | among five packets of the selected track, a malformed third one is skipped; the other four are fed in order and the record holds the estimate after the last of them |

## Left out

- Opening the file, probing the format, choosing the track and building the decoder are left out. These are calls into the decoding library, and their `expect` panics come before the loop. The loop takes the selected track's identifier and optional sample rate as inputs.
- EngineHandleDiscipline: the `expect` on building the decoder (src/main.rs:316-318) runs after the engine handle is created, so it is one more exit on which the deferred release runs. That exit is not modelled; the discipline is stated for the missing sample rate and for every exit from the loop.
- The sample values are left out. A plane is an opaque reference, and only the presence of a first plane affects control flow.
- The conversion of a plane's length to `u64` is left out.
- The key-finder engine and its foreign bindings are left out. The engine is an oracle from the sequence of planes fed so far to an `i32` code. Its handle is a ghost log of calls, not a pointer.
- Draining the metadata queue and printing tags are left out. Draining discards the queued entries and prints their tags; neither affects the result or the packet loop.
- All printing is left out, as are argument parsing, `main` and the JSON serialisation of the record.
- The search request is left out: the HTTP client, the host and headers of the URL, and the hard-coded query text at the call site. The request is built and never sent, and nothing is paged or aggregated.
- ProcessMp3File: the end of the event sequence stands for the read error the packet reader gives at the end of the stream. It is handled like every other read error that is not a reset.
- CompatibleKeys: the 24 empty rows (the 23 other concrete keys and `Unknown`) are modelled as written. Only the `A minor` row is filled in, so no contract states the neighbourhood property for any other key.
- QueryStringRoundTrip compares decoded byte sequences. The library's parser turns these into strings, replacing invalid UTF-8. This is left out because every byte sequence compared here is valid UTF-8.
