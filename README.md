# Strava streams to GPX, and the token refresh

This project models two parts of the Strava client, `src/utils/strava.py`.

`create_gpx_from_streams` turns an activity's sample streams into a GPX 1.1 track log. The log is assembled from these pieces:

- a `gpx` root carrying `version="1.1"` and `creator="Strava Project"`;
- one `trk` whose `name` is "Downloaded Activity";
- one `trkseg`;
- one `trkpt` per position sample.

Each point gets `ele`, `time`, `extensions/distance` and `extensions/cadence` children, but only while the matching stream is long enough. The time is the activity's `start_date` plus the elapsed seconds, written by `isoformat()`.

`refresh_tokens` does nothing when the user's token is still valid. Otherwise it posts the refresh token to the OAuth endpoint and stores the answer's three token fields on the user.

The model is split into modules:

- `Wrappers` (`wrappers.dfy`): Option, Result and `AllOk`. `AllOk` stops at the first failing result, the way an exception leaves the loop.
- `CivilTime` (`civil_time.dfy`): UTC date-times on the proleptic Gregorian calendar, with the range Python's `datetime` allows (years 1 to 9999, whole seconds).
  - `Instant` counts seconds since 0001-01-01T00:00:00.
  - `AddSeconds` is `datetime + timedelta(seconds=k)`. It carries across minutes, hours, days, months and years, and gives None where Python raises OverflowError.
- `Timestamp` (`timestamp.dfy`): `datetime.strptime(s, "%Y-%m-%dT%H:%M:%SZ")` and `isoformat()` for a UTC value.
- `Gpx` (`gpx.dfy`): the element tree and the conversion.
  - The functions `TrackPoint`, `Track` and `CreateGpx` say what the document is.
  - The methods `BuildTrackPoint`, `BuildTrackPoints` and `CreateGpxFromStreams` build it the way the source does: they append children and points in a loop, and each is proved to return exactly what the matching function describes.
- `StravaClient` (`strava_client.dfy`): the `User` record with its mutable token fields, the `Strava` client and `RefreshTokens`.

Where the source and its plain description disagree, this model follows the code:

- **Lenient parsing.** `strptime` does not demand the zero-padded form. Its pattern for `%m` is `1[0-2]|0[1-9]|[1-9]`, so `2023-1-5t7:8:9z` is accepted: one-digit fields, a day written with a leading space, and the letters `T`/`Z` in either case. `ParseStartDate` models those alternatives.
- **Range checks.** Python's `datetime` constructor then refuses year 0, a day past the month's end, and seconds 60 and 61, although the pattern lets them through.
- **Failures.** A missing `start_date` gives `MissingStartDate` (`strptime(None, …)` raises TypeError). A text `strptime` refuses gives `MalformedTimestamp`. A time past 9999-12-31T23:59:59 gives `DateOutOfRange`. In each case no document is produced.

## Model

| member | source | states |
|---|---|---|
| Gpx.CreateGpxFromStreams | src/utils/strava.py:97-136 | reads the five streams (missing ones as empty), parses the start date, builds the header and the points, and returns exactly `CreateGpx` (the document or the error) |
| Gpx.BuildTrackPoints | src/utils/strava.py:116-136 | the loop over the position samples appends one point per index, in order, and stops with the first point's error; the result equals `AllOk` of the per-index `TrackPoint` outcomes |
| Gpx.BuildTrackPoint | src/utils/strava.py:117-136 | appending the optional children one at a time yields exactly `TrackPoint`, and fails with `DateOutOfRange` when the time cannot be added |
| Gpx.CreateGpxOutcome | src/utils/strava.py:104-126 | no `start_date` gives MissingStartDate; an unparsable one gives MalformedTimestamp; otherwise the build succeeds iff every point that has a time sample gets a representable time, and fails with DateOutOfRange if not |
| Gpx.CreateGpxDocument | src/utils/strava.py:110-119 | a built document is `gpx` with version 1.1 and creator "Strava Project", holding one `trk` with the name "Downloaded Activity" and one `trkseg` whose children are exactly the `len(latlng)` points in index order, whatever the other streams' lengths |
| Gpx.EmptyTrack | src/utils/strava.py:98-116 | with no position samples (missing or empty) and a readable start date, the document is the header with an empty `trkseg` |
| Gpx.TrackPointContents | src/utils/strava.py:116-136 | point `i` has `lat`/`lon` from position sample `i`; it has an `ele`, `time`, distance-`extensions` or cadence-`extensions` child iff the altitude, time, distance or cadence stream reaches `i`; the children come in that order and nothing else appears |
| Gpx.TrackPointValues | src/utils/strava.py:120-136 | each child of point `i` holds its stream's `i`-th sample; the `time` child holds the start plus `time[i]` seconds in isoformat |
| Gpx.PointGroups | src/utils/strava.py:120-136 | the children of point `i` are four optional groups, one per stream, each present iff its stream reaches `i` and then holding that stream's child |
| Gpx.OrderedGroups | src/utils/strava.py:120-136 | four optional single-child groups put together in order keep their kinds strictly increasing, and a kind is present iff its group is non-empty |
| Gpx.SeparateExtensions | src/utils/strava.py:129-136 | when both distance and cadence reach `i`, the point ends with two separate `extensions` wrappers, distance first then cadence, and has no other `extensions` |
| Gpx.FullTrackPoint | src/utils/strava.py:116-136 | when every stream reaches `i`, the point is `trkpt(lat, lon)` holding `ele`, `time`, `extensions(distance)` and `extensions(cadence)` in that order |
| Gpx.TestFirstPoint | tests/test_strava.py:103-115 | the first point of the two-point test activity is `trkpt lat="37.7749" lon="-122.4194"` with `ele` 5.0, then its time, distance 0.0 and cadence 80 |
| Gpx.TestSecondPoint | tests/test_strava.py:103-110 | the second test point carries lat 37.775, lon -122.4195, `ele` 6.0, its time, distance 10.0 and cadence 85 |
| Gpx.TestFirstTime | tests/test_strava.py:107-115 | elapsed time 0 from 2023-11-27T00:00:00 keeps the start time |
| Gpx.TestSecondTime | tests/test_strava.py:107-111 | elapsed time 10 from 2023-11-27T00:00:00 gives 2023-11-27T00:00:10 |
| Gpx.TestFirstTimeText | tests/test_strava.py:115 | the first point's time text is `2023-11-27T00:00:00+00:00` |
| Gpx.TestSecondTimeText | tests/test_strava.py:107-111 | the second point's time text is `2023-11-27T00:00:10+00:00` |
| CivilTime.AddDays | src/utils/strava.py:124-126 | moving a valid date `n` days forward gives a valid date whose day number is `n` larger |
| CivilTime.AddSeconds | src/utils/strava.py:124-126 | a result of `start + timedelta(seconds=k)` is a valid date-time exactly `k` seconds after the start |
| CivilTime.AddSecondsDefined | src/utils/strava.py:124-126 | the addition succeeds iff the resulting instant lies before 10000-01-01T00:00:00 (Python's OverflowError otherwise) |
| CivilTime.AddSecondsUnique | src/utils/strava.py:124-126 | the sum is the one valid date-time lying `k` seconds after the start |
| CivilTime.AddZeroSeconds | src/utils/strava.py:124-126 | adding zero seconds gives the start back |
| CivilTime.AddSecondsTwice | src/utils/strava.py:124-126 | adding `a` then `b` seconds equals adding `a + b` seconds, overflow included |
| CivilTime.DayNumberInjective | src/utils/strava.py:124-126 | distinct valid dates have distinct day numbers |
| CivilTime.InstantInjective | src/utils/strava.py:124-126 | distinct valid date-times have distinct instants |
| Timestamp.ParseStartDate | src/utils/strava.py:106-108 | a parsed start date is a date-time Python's `datetime` can represent |
| Timestamp.ParseFormatZulu | src/utils/strava.py:106-108 | parsing the zero-padded `YYYY-MM-DDTHH:MM:SSZ` text of any valid date-time gives that date-time back |
| Timestamp.ParsedIsFormatZulu | src/utils/strava.py:106-108 | an accepted text laid out as the fixed format (20 characters, upper-case `T` and `Z`, no space before the day) is exactly the zero-padded text of the date-time it yields |
| Timestamp.FixedFormatExact | src/utils/strava.py:106-108 | for texts of the fixed layout, `s` parses to `t` iff `t` is valid and `s` is its zero-padded text |
| Timestamp.FormatZuluShape | src/utils/strava.py:106-108 | the zero-padded text of a valid date-time has the fixed layout |
| Timestamp.TrailingTextRejected | src/utils/strava.py:106-108 | any text after the `Z` makes the parse fail (unconverted data) |
| Timestamp.FormatIsoReplacesZulu | src/utils/strava.py:124-126 | the isoformat text is the 20-character `...Z` form with its `Z` replaced by `+00:00` |
| Timestamp.ParseExamples | tests/test_strava.py:111 | `2023-11-27T00:00:00Z` parses to midnight of 27 November 2023, and `not-a-date` does not parse |
| Wrappers.AllOkSpec | src/utils/strava.py:116-136 | building all points succeeds iff every point does, keeps them in order, and otherwise reports the first point's error |
| StravaClient.Strava.constructor | src/utils/strava.py:13-21 | the client keeps the user record it is given (the same object, so refreshes are seen through it) and its client id and secret |
| StravaClient.Strava.RefreshTokens | src/utils/strava.py:41-60 | always returns true; an unexpired token sends nothing and changes nothing on the user; an expired one sends one POST to `https://www.strava.com/oauth/token` with the client id and secret, grant type `refresh_token` and the stored refresh token, then sets the access token, expiry and refresh token to the answer's values (None where absent) and leaves the user's other fields alone |
| StravaClient.TestRefreshExpired | tests/test_strava.py:40-61 | with an expired token the one request is the POST to the token URL with `mock_client_id`, `mock_client_secret`, grant type `refresh_token` and `mock_refresh_token`; the call returns true and the user then holds `new_access_token`, expiry 1234567890 and `new_refresh_token` |
| StravaClient.TestRefreshNotNeeded | tests/test_strava.py:144-149 | with a live token no request is made, the call returns true and the user keeps its tokens |

## Left out

- The HTTP pass-throughs `list_activities`, `get_activity`, `exchange_auth_code`, `get_activity_streams`, `upload_gpx` and `get_upload` are not modelled. They only assemble arguments for `make_request`, whose source is not part of this model. (`exchange_auth_code` writes `token_expires_at` where `refresh_tokens` writes `expires_at`.)
- `gpx_to_parquet_streaming` is not modelled: it is S3, HDFS and Parquet I/O through gpxpy, pyarrow and boto3.
- Serialisation by `tostring` (attribute and text escaping, UTF-8 bytes) is a library call; with `encoding="utf-8"` it writes no XML declaration, so the bytes start at `<gpx`. The model returns the element tree, so the repository test's byte-substring checks are stated here on the tree.
- Python's `str()` of floats and ints is the caller-supplied function `str`. In the test lemmas the samples are given as the text Python prints for them (`37.7750` prints as `37.775`).
- `make_request` is the parameter `post`, a total function from the request to the answer's fields. Its network errors and exceptions are not modelled. The same goes for a non-dict or non-JSON answer.
- `User.is_token_expired()` is the parameter `expired`, because the User class is not part of this model.
- The elapsed-time samples are natural numbers. Fractional seconds (which would produce microseconds in `isoformat()`) and negative offsets are not modelled.
- A position sample is a pair. An entry with fewer than two values, which raises IndexError in Python, cannot be expressed.
- Element attributes are kept as an ordered list of name and value. The tree is built as a value rather than by updating `SubElement` nodes in place.
- `ParseStartDate` accepts ASCII digits only. Python's `\d` also matches other Unicode decimal digits.
- The time zone is not carried. Every date-time is UTC, as `.replace(tzinfo=timezone.utc)` makes it in the source.
- Gpx.TestFirstTime, Gpx.TestSecondTime, Gpx.TestFirstTimeText and Gpx.TestSecondTimeText: the repository test's expected text for the first point is stated in these separate steps, not as one statement about the whole serialised document.
- Timestamp.ParseStartDate: the if-and-only-if with the written form (FixedFormatExact) covers texts laid out as the fixed format only. Which lenient spellings are accepted (one-digit fields, a space before a one-digit day, lower-case `t`/`z`) rests on the parser's definition, and no lemma states it separately.
