# dask-dirac: DIRAC request helpers, catalog replies and Adler-32 checksums

This project models, in Dafny, the deterministic helpers of `dask_dirac`'s
DIRAC client (`src/dask_dirac/_dirac.py`):

- **`DiracSettings` and the request functions.** Each request function
  (`submit_job`, `get_jobs`, `get_max_parametric_jobs`, `whoami`,
  `get_directory_dump`, `create_directory`, `remove_directory`, `remove_file`,
  `get_file`) points the settings' `query_url` at one endpoint of the server.
  It then builds a `method`/`args` parameter map and hands it to `_query`.
  `_query` applies `_set_defaults` and POSTs to the server. The model stops at
  the POST: `Requests.Query` returns the request that would be sent.
- **`get_directory_success_files`.** It flattens a file-catalog reply,
  `Value -> Successful -> <directory> -> Files`, into the list of file names.
  Missing keys raise `KeyError`; the model returns that as an error value.
- **`_adler32`.** The file's chunks are folded into zlib's running Adler-32,
  starting from 1. The value is then rendered as hex text. Adler-32 is defined
  in closed form, following section 2.2 of RFC 1950 (`Adler.Adler32`). zlib's
  byte-at-a-time form (`Adler.Update`) is proved equal to it, and so is the
  chunk-by-chunk fold.

Files: `adler32.dfy` (module `Adler`), `hex.dfy` (module `ChecksumHex`),
`checksum.dfy` (module `Checksum`), `catalog.dfy` (module `Catalog`),
`requests.dfy` (module `Requests`), and `wrappers.dfy` (module `Wrappers`,
the shared `Option` type).

Behaviour worth knowing, proved here: the checksum text is eight characters
only when the masked value is at least `0x100`. Below that, the text is five
zeros followed by the one or two significant digits. An empty file's checksum
is 1, which renders as `"000001"` (`Checksum.EmptyFile`).

## Model

| member | source | states |
|---|---|---|
| `Requests.DiracSettings.constructor` | src/dask_dirac/_dirac.py:24-31 | The settings hold the given server URL, CA directory, proxy and query URL. The defaults are the CVMFS certificate directory and empty proxy and query URL. |
| `Requests.SetDefaults` | src/dask_dirac/_dirac.py:34-37 | If the query URL contains `diracdev.grid.hep.ph.ic.ac.uk`, the keys gain `clientSetup` and nothing else. Otherwise the keys are unchanged. Every existing key keeps its value, including an existing `clientSetup`. An absent `clientSetup` becomes `"GridPP"`. |
| `Requests.Query` | src/dask_dirac/_dirac.py:40-50 | The POST goes to the current `query_url`. Its data is the defaulted params. It uses the user proxy as certificate, the CA path for verification and a 60-second timeout. |
| `Requests.Call` | src/dask_dirac/_dirac.py:53-135 | `query_url` becomes `server_url + "/" + endpoint`, and the request sent is the one `_query` builds for the method and its arguments. |
| `Requests.SubmitJob` | src/dask_dirac/_dirac.py:53-58 | `query_url` becomes the server's `WorkloadManagement/JobManager`. The request is `submitJob` with exactly one argument, the JDL. |
| `Requests.GetJobs` | src/dask_dirac/_dirac.py:61-66 | `query_url` becomes the server's `WorkloadManagement/JobMonitoring`. The request is `getJobs` with no `args`. |
| `Requests.GetMaxParametricJobs` | src/dask_dirac/_dirac.py:69-74 | `query_url` becomes the server's `WorkloadManagement/JobManager`. The request is `getMaxParametricJobs` with no `args`. |
| `Requests.Whoami` | src/dask_dirac/_dirac.py:77-82 | `query_url` becomes the server's `DataManagement/FileCatalog`. The request is `whoami` with no `args`. |
| `Requests.GetDirectoryDump` | src/dask_dirac/_dirac.py:98-103 | `query_url` becomes the server's `DataManagement/FileCatalog`. The request is `getDirectoryDump` with the path as its one argument. |
| `Requests.CreateDirectory` | src/dask_dirac/_dirac.py:106-111 | `query_url` becomes the server's `DataManagement/FileCatalog`. The request is `createDirectory` with the path as its one argument. |
| `Requests.RemoveDirectory` | src/dask_dirac/_dirac.py:114-119 | `query_url` becomes the server's `DataManagement/FileCatalog`. The request is `removeDirectory` with the path as its one argument. |
| `Requests.RemoveFile` | src/dask_dirac/_dirac.py:122-127 | `query_url` becomes the server's `DataManagement/FileCatalog`. The request is `removeFile` with the path as its one argument. |
| `Requests.GetFile` | src/dask_dirac/_dirac.py:130-135 | `query_url` becomes the server's `DataManagement/FileCatalog`. The request is `getFile` with the path as its one argument. |
| `Requests.Request` | src/dask_dirac/_dirac.py:53-135 | The parameter map has the key `method`, holding the function's DIRAC method name, and the key `args` exactly when the function takes an argument, holding that argument list. It has no other keys. `Requests.RequestParams` proves what is left after `_set_defaults`. |
| `Requests.RequestParams` | src/dask_dirac/_dirac.py:53-135 | The posted data has exactly these keys: `method`, `args` only when the function takes an argument, and `clientSetup` only for the development server. `method` is the fixed name, `args` is exactly the given list, and `clientSetup` is `"GridPP"`. |
| `Requests.Contains` | src/dask_dirac/_dirac.py:35 | `sub in s`: true exactly when `sub` occurs at some index of `s`. The empty string is in every string, a longer string is in none, and a prefix is always found. `OccurrenceInServer` and `DevServerIff` prove where the development host can occur in a query URL. |
| `Requests.DevServerIff` | src/dask_dirac/_dirac.py:34-37 | For each of the three endpoints, `server_url + "/" + endpoint` contains the development host exactly when `server_url` does. The default therefore depends only on the server. |
| `Requests.OccurrenceInServer` | src/dask_dirac/_dirac.py:35-36 | An occurrence of the development host in a query URL lies wholly inside the server URL. |
| `Catalog.SuccessFiles` | src/dask_dirac/_dirac.py:85-95 | A missing `Value`, `Successful` or `Files` key gives `KeyError` for that key. An empty `Successful` gives `[]`. Otherwise the result is the concatenation, in directory order, of each directory's `Files` keys (`AllFiles`). |
| `Catalog.AllFiles` | src/dask_dirac/_dirac.py:91-94 | The number of names gathered is the sum of the sizes of the `Files` maps. `AllFilesMembers` and `AllFilesBlock` prove which names they are and in what order. |
| `Catalog.AllFilesMembers` | src/dask_dirac/_dirac.py:91-95 | A name is returned if and only if it is a `Files` key of some successful directory. |
| `Catalog.AllFilesBlock` | src/dask_dirac/_dirac.py:92-94 | The names of directory `k` form one contiguous block, in their own order. The block starts right after the names of the directories before `k`. |
| `Adler.Step` | src/dask_dirac/_dirac.py:154 | One byte folded into the sums leaves both below 65521. `RunClosedForm` proves what the sums then are. |
| `Adler.Run` | src/dask_dirac/_dirac.py:154 | Folding the bytes of a buffer into reduced sums leaves them reduced. `RunAppend` proves that the fold splits at any point, and `RunClosedForm` that it computes the RFC 1950 sums. |
| `Adler.Update` | src/dask_dirac/_dirac.py:154 | zlib's `adler32(data, value)`: resuming from a valid checksum yields a valid 32-bit checksum. Both sums stay below 65521. |
| `Adler.RunAppend` | src/dask_dirac/_dirac.py:153-154 | Running the sums over `x + y` is the same as running over `x` and then over `y`. |
| `Adler.RunClosedForm` | src/dask_dirac/_dirac.py:154 | After the bytes of `d`, the running sums equal the RFC 1950 sums. `s1` has grown by the byte total. `s2` has grown by the length of `d` times the old `s1`, plus each byte once per prefix that contains it. All values are mod 65521. |
| `Adler.UpdateChain` | src/dask_dirac/_dirac.py:152-154 | Updating with `x` and then with `y` equals updating once with `x + y`. This is the chaining property of Adler-32. |
| `Adler.UpdateFromOne` | src/dask_dirac/_dirac.py:152-154 | Starting from 1, zlib's running checksum is the Adler-32 of RFC 1950. |
| `Adler.Adler32IsChecksum` | src/dask_dirac/_dirac.py:152-158 | Every Adler-32 value is below 2^32 with both halves below 65521, so the 32-bit mask leaves it unchanged. |
| `Checksum.ReadChunks` | src/dask_dirac/_dirac.py:141-149 | Every chunk `_read_chunk` yields is non-empty and at most the chunk size. `ReadChunksSpec` proves that the chunks concatenate back to the file. |
| `Checksum.ReadChunksSpec` | src/dask_dirac/_dirac.py:141-149 | The chunks `_read_chunk` yields concatenate back to the file. Each chunk is non-empty and at most the chunk size. |
| `Checksum.FoldChunks` | src/dask_dirac/_dirac.py:151-154 | Folding any sequence of chunks from 1 gives the Adler-32 of their concatenation. So the result does not depend on the chunk size. |
| `Checksum.Adler32Hex` | src/dask_dirac/_dirac.py:138-164 | The returned text is the rendering of the file's Adler-32. It consists of hex digits only and reads back as that checksum. |
| `Checksum.EmptyFile` | src/dask_dirac/_dirac.py:152-162 | An empty file's checksum text is `"000001"`. |
| `ChecksumHex.Digits` | src/dask_dirac/_dirac.py:158 | The digits of `hex(n)` after `0x` are one or more lower-case hex digits. They denote `n` and have no leading zero unless `n` is 0. |
| `ChecksumHex.Hex` | src/dask_dirac/_dirac.py:158 | `hex(n)` is `0x` followed by at least one hex digit, and those digits denote `n`. |
| `ChecksumHex.Lower` | src/dask_dirac/_dirac.py:159 | `.lower()` keeps the length and leaves no capital letter. Every character that is not a capital is kept in place. |
| `ChecksumHex.Replace` | src/dask_dirac/_dirac.py:160-161 | After `.replace(c, repl)`, `c` no longer occurs unless `repl` contains it. `ReplaceAbsent` proves that text without `c` is unchanged. |
| `ChecksumHex.Last` | src/dask_dirac/_dirac.py:161 | `s[-k:]` has `k` characters, or all of `s` when it is shorter or when `k` is 0 (Python's `-0` is `0`). It is the tail of `s`. |
| `ChecksumHex.Render` | src/dask_dirac/_dirac.py:157-162 | The checksum text has at most 8 characters. `RenderSpec` proves its digits, value and exact length. |
| `ChecksumHex.LowerNoCapitals` | src/dask_dirac/_dirac.py:159 | `.lower()` leaves text without capitals unchanged. |
| `ChecksumHex.ReplaceAbsent` | src/dask_dirac/_dirac.py:160 | `.replace(c, ...)` leaves text without `c` unchanged, so `.replace("l", "")` does nothing on hex output. |
| `ChecksumHex.DigitsLength` | src/dask_dirac/_dirac.py:158 | `n` has at most `k` hex digits if and only if `n < 16^k`. |
| `ChecksumHex.LeadingZeros` | src/dask_dirac/_dirac.py:161 | Leading zeros do not change the value a hex digit string denotes. |
| `ChecksumHex.PaddedDigits` | src/dask_dirac/_dirac.py:157-161 | After `.lower()` and both replacements, `"0x" + digits` becomes `"00000" + digits`. |
| `ChecksumHex.Padded` | src/dask_dirac/_dirac.py:157-161 | Before slicing, the text is `"00000"` followed by the digits of the value masked to 32 bits. |
| `ChecksumHex.RenderSpec` | src/dask_dirac/_dirac.py:157-162 | The rendering has only the characters `0-9a-f` and reads back as the value masked to 32 bits. It has 8 characters when the masked value is at least `0x100`, 7 when it is in `0x10..0xff`, and 6 when it is below `0x10`. |
| `ChecksumHex.RenderOne` | src/dask_dirac/_dirac.py:157-162 | The value 1 renders as `"000001"`. |

## Left out

- `_query`'s `requests.post`, the TLS client certificate and CA handling, and the JSON decoding of replies are left out: they are network I/O. `Requests.Query` returns the POST it would make, and a catalog reply is an input.
- `json.dumps` of `args` is not modelled: it is a foreign serialiser. `args` is kept as the list of strings it encodes.
- Opening and reading the file in `_adler32` is file I/O and is not modelled. The file is given as its content. `Checksum.ReadChunks` gives the chunk boundaries `_read_chunk` produces.
- `add_file` is left out: it uses the gfal2 transfer library, `os.path.getsize` and a remote registration. Its `Checksum` field comes from `_adler32`, which `Checksum.Adler32Hex` models.
- Adler.Update: only starting values with both halves below 65521 are modelled. zlib accepts any 32-bit value, but the source passes only 1 or a previous result.
- ChecksumHex.Lower: only ASCII capitals are mapped. Python's full Unicode case mapping is not modelled; hex text is ASCII.
- Requests.SetDefaults: it returns the updated map instead of changing the caller's dict in place. Its only caller, `_query`, rebinds `params` to the result.
- Catalog.SuccessFiles: only missing keys are modelled as errors. A reply whose parts are not dictionaries, which would raise `TypeError`/`AttributeError`, is outside the model. So are duplicate keys, which a decoded JSON dict cannot contain.
- `src/dask_dirac/cli.py` (the typer CLI), `src/dask_dirac/_dask.py` (the dask-jobqueue cluster and JDL file writing), the Jinja template loader and `__init__.py` are left out: they are plumbing and foreign libraries.
