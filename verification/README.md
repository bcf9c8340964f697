# BounsBot mint watcher, modelled in Dafny

BounsBot watches an NFT contract and tweets the artwork of every newly minted
token. At start-up `main_loop` reads `totalSupply()` once and remembers it as
`old_supply`, so tokens minted before start-up are never announced. Every
cycle it reads the supply again. If the new supply is strictly larger, it
processes the token ids `old_supply+1 .. new_supply` in ascending order and
then remembers the new supply. Processing one token has four steps:

- fetch `tokenURI(id)`, with at most five attempts and a sleep of 1, 2, 4, 8 s between them;
- unwrap the base64 JSON metadata and the base64 SVG image (`get_svg`);
- rasterise the SVG to PNG, falling back to the SVG bytes (`svg_to_png`);
- hand the result to `post_tweet`.

A failure of one token is caught for that token alone. A failure of the
supply read is caught for the whole cycle.

The project has five modules:

- `Wrappers` (wrappers.dfy): `Option` and `Result`. They stand for a call that raised.
- `Metadata` (metadata.dfy): `get_svg` and `svg_to_png` as functions. The base64 decoder, the UTF-8 decoder, the JSON lookup of `"image"` and the rasteriser are parameters (`Codecs`, `rasterize`).
- `RetryLoop` (retry.dfy): the retry loop.
  - `Retry` is its specification.
  - `FetchTokenUri` is the `for attempt in range(5)` loop, proved equal to it.
  - `tokenUri(id, k)` is what the k-th call for token `id` returns.
  - Sleeps are recorded as values.
- `Supply` (supply.dfy): the pure specification of one cycle (`NextSupply`, `CycleIds`) and of a finite run of cycles (`RunSupply`, `RunIds`), with the lemmas about them.
- `Watcher` (watcher.dfy): the loop itself.
  - The class `BounsBot` holds `lastSupply` (the source's `old_supply`) and `reports` (one entry per processed token, in order).
  - `Poll` is one cycle. `ProcessTokens` is its per-token `for` loop. `ProcessToken` is the per-token `try`.
  - `MainLoop` runs the start-up read and then a finite sequence of readings.

The project's design notes describe an auction oracle (current item id, end
time, settlement flag) and an adaptive long/short poll interval. The code does
not do this. It reads `totalSupply()` and sleeps a fixed 300 s. The model
follows the code.

Two consequences of the code's policy are proved as concrete lemmas:

- `Supply.SkippedPollScenario`: a poll that skips an id still processes it.
- `Supply.DipHidesRemint`: a reading at or below the remembered supply triggers nothing, even after a dip. The source treats supply counts as token ids (main.py:152), so after a burn the processed ids lag behind the minted ones.

## Model

| member | source | states |
|---|---|---|
| `Metadata.StripPrefix` | main.py:87-89 | when the string starts with the prefix, the result is what follows the prefix; otherwise the result is the string unchanged |
| `Metadata.StripPrefixOnce` | main.py:88-89 | the prefix is removed exactly once: prefix+rest gives rest, and prefix+prefix+rest gives prefix+rest |
| `Metadata.DecodeMetadata` | main.py:91-102 | a payload that is not base64 fails as such; decoded bytes that are not UTF-8 fail as such; text without a string "image" field fails as such; otherwise the result is the decode of the image field |
| `Metadata.GetSvg` | main.py:84-102 | the metadata decode gets the URI without the JSON data-URI prefix when the URI starts with it, and the URI unchanged otherwise |
| `Metadata.GetSvgPrefixed` | main.py:87-93 | for a URI made of the JSON prefix and a rest, get_svg decodes exactly the rest |
| `Metadata.DecodeImage` | main.py:96-102 | the image decode succeeds exactly when base64 decoding of the image field, SVG prefix stripped, succeeds, and gives those bytes; otherwise the error is "image not base64" |
| `Metadata.DecodeImagePrefixed` | main.py:97-102 | for an image field made of the SVG prefix and a rest, exactly the rest is base64-decoded |
| `Metadata.SvgToPng` | main.py:104-113 | never fails: it returns the rasteriser's output, or the input bytes unchanged when rasterising raised |
| `RetryLoop.Backoff` | main.py:156-166 | the recorded delays start at 1 s and each one doubles the one before |
| `RetryLoop.FullBackoff` | main.py:155-166 | the delays slept for one token are at most 1, 2, 4 and 8 s |
| `RetryLoop.CallsFrom` | main.py:157-163 | from attempt k the loop makes between k+1 and 5 calls; every call before the last failed; the last call succeeded or was the fifth |
| `RetryLoop.Retry` | main.py:155-166 | 1 to 5 calls; it stops at the first success and returns that URI; it gives up (the exception propagates) only after 5 failures; one delay per failed non-final call, with none after the last call |
| `RetryLoop.RetryDetermined` | main.py:157-163 | "first success, or five failures" fixes the number of calls, the result and the delays |
| `RetryLoop.FetchTokenUri` | main.py:155-166 | the `for attempt` loop with its `break`, `raise`, `sleep` and `retry_delay *= 2` gives exactly `Retry` |
| `Supply.Range` | main.py:152 | `range(lo, hi)` has hi-lo elements, and element i is lo+i |
| `Supply.RangeShape` | main.py:152 | a range is strictly increasing (each id once, ascending) and holds exactly the ids lo <= x < hi |
| `Supply.RangeConcat` | main.py:152 | consecutive ranges join into one range |
| `Supply.NextSupply` | main.py:148-179 | the remembered supply never decreases, is at least any successful reading, and is either unchanged or equal to that reading |
| `Supply.CycleIds` | main.py:149-152 | a cycle processes as many ids as the supply advanced, and the i-th one is the old supply + 1 + i |
| `Supply.CycleShape` | main.py:148-176 | a cycle processes exactly the ids above the old supply up to the new one, once each, ascending; a failed read, an equal supply or a smaller supply processes nothing and keeps the old supply |
| `Supply.RunSupply` | main.py:146-179 | the supply remembered after a run of cycles is never below the start-up supply |
| `Supply.RunIds` | main.py:146-179 | every id processed over a run is above the start-up supply and at most the final remembered supply |
| `Supply.RunSupplyHighest` | main.py:143-179 | after a run the remembered supply is the largest of the start-up supply and every successful reading |
| `Supply.RunIdsRange` | main.py:143-179 | the ids processed over a run are exactly the start-up supply + 1 up to the final remembered supply |
| `Supply.RunShape` | main.py:143-179 | over readings r0, r1, ..., rk the processed ids are exactly those in (r0, max ri], once each, ascending |
| `Supply.RunSupplyAppend` | main.py:146-182 | running two stretches of readings one after the other is the same as running them joined |
| `Supply.RunIdsAppend` | main.py:146-182 | the ids of joined stretches are the ids of the first stretch followed by those of the second |
| `Supply.RunSupplyMonotone` | main.py:146-182 | at any later point of a run the remembered supply is at least what it was at an earlier point, and never below the start-up supply |
| `Supply.SkippedPollScenario` | main.py:143-179 | start 5, then a failed read, 7, 7, 6: ids 6 and 7 are processed once each, in order, and the final supply is 7 |
| `Supply.DipHidesRemint` | main.py:149-176 | start 5, then 4, 5: a reading at or below the remembered supply processes nothing, and the supply stays 5 |
| `Watcher.Process` | main.py:153-174 | the report names the token and the retry loop's outcome; it is a failure exactly when the URI fetch gave up or get_svg raised |
| `Watcher.ProcessOutcome` | main.py:153-174 | a token whose URI fetch gave up fails with "URI unavailable"; a token whose metadata cannot be unwrapped fails with that get_svg error; otherwise post_tweet receives the rasteriser's PNG when rasterising succeeded, and the SVG exactly when it failed |
| `Watcher.Reports` | main.py:152-174 | one report per id, and the i-th report is what processing the i-th id gives |
| `Watcher.ReportsCoverIds` | main.py:152-174 | every id gets exactly one report, in order, whether earlier tokens failed or not |
| `Watcher.RunReportsCoverIds` | main.py:143-179 | over a run the reports name exactly the ids above the start-up supply up to the final supply, once each, in order, whatever each token's outcome |
| `Watcher.ProcessToken` | main.py:153-174 | the per-token `try`/`except` gives the report `Process` specifies |
| `Watcher.BounsBot.constructor` | main.py:142-144 | the watcher starts at the start-up supply, with nothing processed |
| `Watcher.BounsBot.ProcessTokens` | main.py:152-174 | the per-token loop appends one report per id of `range(first, stop)`, in order |
| `Watcher.BounsBot.Poll` | main.py:146-179 | one cycle sets the supply to `NextSupply` and appends the reports of exactly `CycleIds` |
| `Watcher.MainLoop` | main.py:140-182 | a failed start-up read stops the bot; otherwise, after the readings, the supply is `RunSupply` and the reports are those of `RunIds` |

## Left out

- `post_tweet` and `twitter_adapter.py`: `post_tweet` catches all of its own failures and only prints in mock mode. A report `Posted(png)` therefore means only that `post_tweet` was called with those bytes.
- `__init__`, `_initialize_contract` and `_initialize_twitter`: environment loading, Web3 and Twitter client setup.
- The library internals of `base64.b64decode`, UTF-8 decoding, `json.loads` with the `"image"` lookup, and `cairosvg.svg2png`. They are parameters that may fail.
- `time.sleep` and the endless `while True`. The model runs finite sequences of readings. Retry delays are recorded, and the 300 s pause between cycles is not.
- Nondeterminism of the remote calls: `tokenURI` is a fixed function of (token id, attempt number), and supply reads are a given sequence.
- `print` logging.
- The 256-bit bound of `totalSupply()`: supplies are unbounded naturals.
- Exceptions outside `Exception`, such as `KeyboardInterrupt`. The handlers do not catch them and they stop the process.
- The adaptive long/short poll interval of the design notes. The code has no counterpart to it.
