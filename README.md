# Image catalogue service: metadata extraction and search

The service accepts image uploads, pulls the capture time and the GPS
position out of each image's EXIF block, stores them with a generated file
name and answers listing and search requests. This project models the parts
of `main.py` that make decisions, and proves properties of them:

- **Metadata extraction** (`extract_metadata`), module `Exif` in `exif.dfy`,
  with cross-input properties in `exif_properties.dfy`. It is modelled as pure
  functions. The input is the already-decoded EXIF block: `None` when the
  image has none, otherwise a primary ("0th") directory and a GPS directory.
  Each directory maps tag numbers to values. A value is either a tuple of
  numbers or a text. The output is the file name (the path's last
  component), the capture time and the location. The location is a pair of
  exact `real` decimal degrees: `d + m/60 + s/3600`, negated unless the
  hemisphere reference is exactly `"N"` (latitude) or `"E"` (longitude).
  A missing reference is not `"N"` or `"E"`, so it also negates.
- **Search query builder** (`search_images`), module `Search` in
  `search.dfy`. `BuildSearch` is a method that grows the SQL text and the
  parameter list, as the handler does. It is proved against the functions
  `Filters`, `Render` and `Bindings`. The proofs show that the query holds
  exactly one `?` per parameter. They also show that its WHERE clauses can be
  read back, in order, as the columns of the filters that were given; the
  filter values themselves travel in the parameters, not in the query text.
- **Row mapping** (`get_all_images`, `search_images`), `Search.ToResponses`.
  Each stored row becomes a response record with the url `/images/<filename>`.
  Dropping the url gives back the rows.

`extract_metadata` has no `try`, so the exceptions it raises on ill-typed
tag values leave the function, and the upload handler, unchanged. Examples
are a coordinate tuple with fewer than three entries, a coordinate stored as
text, or a date stored as numbers. `Extract` returns `Failure(fault)` for
these, naming the exception; when both coordinates are bad, the latitude's
exception is the one raised, since it is converted first. The three
components of a coordinate are added directly as numbers; nothing divides a
numerator by a denominator.

## Model

| member | source | states |
|---|---|---|
| `Exif.Basename` | main.py:43 | the file name is the longest suffix of the path without '/': it is a suffix, holds no '/', and is preceded by '/' unless it is the whole path |
| `Exif.DateTimeOf` | main.py:49 | the capture time is the DateTime tag's text, `""` when the tag is absent, and the decode fault (`NotDecodable`), the only one `.decode` can raise there, when the tag holds numbers |
| `Exif.Degrees` | main.py:59 | a coordinate tag yields an angle exactly when it holds at least three numbers; the angle times 3600 is the arc-second total `3600d + 60m + s`; text or a short tuple raises the matching fault |
| `Exif.LocationOf` | main.py:50-65 | no location for an empty GPS directory or a missing/empty tuple; a fault exactly when both tuples are non-empty but one is not a numeric triple, and then the latitude's fault when the latitude is bad, else the longitude's; a location exactly when both are triples, each coordinate equal to the sign of its reference (+1 only for exactly "N"/"E") times its arc-second total / 3600 |
| `Exif.Extract` | main.py:39-71 | no EXIF block gives `None` for both fields; with a block, extraction succeeds exactly when the capture time and the location both do; a date fault is reported first, otherwise the location's fault is passed on unchanged; on success it gives the basename, the capture time (always a string) and the location |
| `ExifProperties.DateTimeTagMissing` | main.py:49 | with an EXIF block and no DateTime tag the capture time is `""`, not `None` |
| `ExifProperties.DateTimeIndependentOfGps` | main.py:49-52 | two blocks with the same primary directory give the same capture time, whatever their GPS directories |
| `ExifProperties.EmptyGpsDirectory` | main.py:50-52 | an empty GPS directory gives no location, and the result then depends only on the capture time |
| `ExifProperties.MissingTripleMeansNoLocation` | main.py:53-58 | a missing or empty latitude or longitude tuple gives no location, even when both references are present |
| `ExifProperties.SignFollowsReference` | main.py:59-64 | for non-negative components each coordinate's absolute value is `d + m/60 + s/3600`, and it is negative exactly when that angle is non-zero and the reference is not exactly "N" / "E" |
| `ExifProperties.NorthWestExample` | main.py:59-64 | (40, 30, 0) "N" and (73, 59, 0) "W" give 40.5 and -(73 + 59/60) |
| `ExifProperties.NonStandardReferenceNegates` | main.py:60-64 | the reference "X" negates latitude and longitude alike |
| `ExifProperties.MissingReferenceNegates` | main.py:54-64 | a missing reference negates the coordinate |
| `ExifProperties.LondonExample` | main.py:39-71 | a dated image at (51, 30, 0) "N", (0, 7, 0) "E" under `images/7.jpg` gives `7.jpg`, that date and (51.5, 7/60) |
| `ExifProperties.ShortTripleRaises` | main.py:58-59 | a one-component latitude is indexed past its end and extraction raises |
| `Search.Filters` | main.py:137-143 | one filter per given (non-empty) argument, the date filter before the location filter; an empty string counts as absent |
| `Search.Bindings` | main.py:137-143 | one parameter per filter, in order: the date wrapped as `%date%`, the location unchanged |
| `Search.ClausePlaceholder` | main.py:138-142 | each appended clause carries exactly one placeholder |
| `Search.BaseQueryHasNoPlaceholder` | main.py:134 | the base query carries no placeholder |
| `Search.PlaceholdersMatchBindings` | main.py:137-143 | the clauses of any filter list hold as many `?` as there are parameters |
| `Search.ParseRender` | main.py:137-143 | the clauses of any filter list read back as the filters' columns, in order |
| `Search.RenderFilters` | main.py:137-143 | the appended text is the date clause (when a date is given) followed by the location clause (when a location is given), and the parameters follow the same order |
| `Search.QueryShape` | main.py:134-143 | any query the builder produces starts with the base query, holds one `?` per parameter and its clauses parse back to the filters' columns |
| `Search.BuildSearch` | main.py:133-143 | the query is the base query followed by the given filters' clauses, the parameters are their bindings, the `?` count equals the parameter count, and with no filter the query is exactly the base query and the parameters are empty |
| `Search.ToResponses` | main.py:149 | one response per row, in order, with id, filename, date and location copied and url `/images/` + filename |
| `Search.ResponsesRoundTrip` | main.py:129 | dropping the url of every response gives back the rows, and every url names exactly its row's file under `/images/` |

## Left out

- Opening the image and decoding its EXIF block (`Image.open`, `piexif.load`): the model starts from the decoded block, and a coordinate component is taken to be a number. Whatever the decoding library actually stores under those tags is not part of this model.
- Bytes versus str: the one `Text` constructor stands for two Python types. The DateTime value behaves as bytes (it is `.decode`d, with default `b''`); a hemisphere reference and a text coordinate behave as str (compared with `'N'`, divided after indexing). In Python 3 `b'N' != 'N'` holds, so if the decoder returned a reference as bytes, as it does the DateTime value, every coordinate would be negated; and indexing bytes gives an int, not a one-letter text. The model assumes references arrive as str.
- The UTF-8 `.decode` of the DateTime value is taken as the identity on already-decoded text. An invalid byte sequence, which would raise, is not modelled.
- Floating-point arithmetic: the model computes angles exactly with `real`, where the code uses 64-bit floats.
- The text form of the location (`f"{lat},{lon}"`): Python's float formatting is not modelled. The location is a pair of numbers.
- `Exif.Basename` follows the POSIX rule (the part after the last '/'). Other path separators are not modelled.
- The database: creating the table, the insert and update of an upload, the autoincrement id, the `<id><extension>` file name, and how SQLite evaluates `LIKE` and `=` against stored rows. The model stops at the query text and its parameters.
- File writes, the HTML pages, serving image files, the HTTP errors (400 and 404), CORS and server start-up: these are I/O and framework wiring without decision logic.
