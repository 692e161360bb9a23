# Hourly vitals loaders, modelled in Dafny

The repository streams medical vital-sign readings into S3 partitions and then
loads them into a Redshift warehouse every hour. This project models the two
hourly loaders.

- **`lambda/lambda_function.py`, the ETL loader.**
  - It works out the previous hour and that hour's partition prefix
    `medical-vitals/year=Y/month=MM/day=DD/hour=HH/`, plus its S3 path.
  - It submits one SQL script and polls the statement's status until the
    status is terminal.
  - The script stages the hour's records. It then appends new rows to the
    patient, hospital and device dimensions, and to `vitals_fact`.
- **`lambda/lambda.py`, the COPY loader.**
  - It builds the same prefix with `{:02d}` formatting and submits a COPY of
    23 named columns.
  - It answers 200 with the query id, or 500 with the error.

Modules:

| file | module | what it holds |
|---|---|---|
| `wrappers.dfy` | `Wrappers` | `Option` |
| `decimal.dfy` | `Decimal` | decimal rendering (`str()`, `CAST(n AS VARCHAR)`) and `CAST(s AS INTEGER)` with its 32-bit range |
| `calendar.dfy` | `Calendar` | the part of Python's `datetime` used here: `now - timedelta(hours=1)` in the proleptic Gregorian calendar, measured against an hour count from 0001-01-01 00:00 |
| `lambda_function.dfy` | `LambdaFunction` | the strftime prefix and its parser, the S3 path, `execute_and_wait` as a loop over the responses of the status calls, and the ETL handler |
| `etl_script.dfy` | `EtlScript` | the SQL script's effect on the tables, both as a function on table values (`RunScript`) and as a `Warehouse` object whose methods append to its four tables one statement at a time |
| `copy_loader.dfy` | `CopyLoader` | the `{:02d}` prefix, the COPY column list and the 200/500 response of the COPY loader |

How the model represents the outside world:

- The clock is the parameter `now`.
- The Data API's answers are parameters:
  - a `Submission` is either an accepted statement id or the exception `execute_statement` raises;
  - a `StatusResponse` is one `describe_statement` call, either its answer or the exception it raises, and the loop takes them as a sequence.
- A `datetime` overflow is the outcome `Failed("date value out of range")` in the ETL loader and `Raised(...)` in the COPY loader.
- The engine conversions that are not modelled are fields of a `Casts` value:
  - ISO text to epoch milliseconds;
  - the float casts to `INTEGER` and `NUMERIC(p,s)`.
  Every property proved here holds for every choice of them.

On dimension duplicates:

- One might expect that when one natural key is staged with different attributes, the first-seen attributes win.
- The script's `SELECT DISTINCT` runs over the whole tuple, so every distinct tuple whose id is new is inserted.
- `EtlScript.DimensionIdsNotUnique` proves that two rows with the same id can result.

## Model

| member | source | states |
|---|---|---|
| Calendar.PrevHour | lambda/lambda_function.py:46 | `now - timedelta(hours=1)`: a valid instant with minute, second and microsecond kept. It is undefined (OverflowError) exactly at 0001-01-01 hour 0. Its partner is the hour count in the next two rows. |
| Calendar.PrevHourStepsBackOneHour | lambda/lambda_function.py:46 | `now - timedelta(hours=1)` is a valid instant exactly one hour index earlier, with minute, second and microsecond unchanged. The hour index is counted from 0001-01-01 00:00 with leap years. The subtraction fails (OverflowError) exactly in the first hour of year 1. |
| Calendar.PrevHourIsUnique | lambda/lambda.py:25-26 | The rollover result is the only valid instant one hour earlier with the same sub-hour fields. So the hour → day → month → year rollover, including 29 February and 31 December, is the calendar's. |
| Calendar.HourIndexInjective | lambda/lambda_function.py:46 | Two valid instants with the same hour count agree on year, month, day and hour. |
| Decimal.NatToString | lambda/lambda_function.py:47 | `str(year)`: one or more digits, with no leading zero unless the value is below 10. |
| Decimal.NatToStringRoundTrip | lambda/lambda_function.py:47 | The decimal rendering of a number reads back as that number. |
| Decimal.IntToString | lambda/lambda_function.py:104 | `CAST(room_number AS VARCHAR(50))`: a leading '-' exactly for a negative number, then digits with no leading zero that read back as its magnitude. |
| Decimal.ParseInt | lambda/lambda_function.py:92 | A value that `CAST(... AS INTEGER)` yields lies inside the 32-bit INTEGER range. |
| Decimal.ParseIntAccepts | lambda/lambda_function.py:92 | The cast accepts only an optional sign followed by one or more digits. The value read is the digits' value, negated after a `-`. |
| Decimal.ParseIntOfSignedDigits | lambda/lambda_function.py:92 | Conversely, every optional sign followed by one or more digits is accepted exactly when its value fits the INTEGER range, and reads as that value. |
| Decimal.ParseIntRoundTrip | lambda/lambda_function.py:102 | Casting the decimal rendering of any 32-bit integer to INTEGER gives that integer. This is the step that turns the digits of a natural key back into its surrogate id. |
| LambdaFunction.Prefix | lambda/lambda_function.py:47 | The prefix is `medical-vitals/year=`, the unpadded year, then 25 characters of hour fields. It starts with `medical-vitals/` and ends with `/`. |
| LambdaFunction.Strftime2 | lambda/lambda_function.py:47 | `%m`, `%d` and `%H` render two digits whose value is the field. |
| LambdaFunction.HourFields | lambda/lambda_function.py:47 | The part after the year is `/month=MM/day=DD/hour=HH/`: 25 characters, with the labels and the two-digit fields at fixed positions. |
| LambdaFunction.S3Path | lambda/lambda_function.py:48 | The path is `s3://`, then the bucket, then `/`, then the prefix, with nothing else. |
| LambdaFunction.PrefixRoundTrip | lambda/lambda_function.py:47 | The prefix starts with `medical-vitals/` and ends with `/`. It parses back into the instant's year, month, day and hour, in that order. |
| LambdaFunction.PrefixInjective | lambda/lambda_function.py:47 | Different hours give different prefixes. |
| LambdaFunction.FirstTerminal | lambda/lambda_function.py:27-40 | Finds the position of the first response that ends the wait: a FINISHED, FAILED or ABORTED status, or a `describe_statement` call that raises. Every earlier response lets the loop poll again. With no such response, none is found. |
| LambdaFunction.WaitOutcomeOf | lambda/lambda_function.py:14-42 | A rejected submission raises its error. The wait returns only the submitted statement's id, and only when some response reported FINISHED. |
| LambdaFunction.ExecuteAndWait | lambda/lambda_function.py:14-42 | The loop's outcome and its number of `describe_statement` calls equal the specification `WaitOutcomeOf` / `PollCount`. A rejected submission raises without polling. |
| LambdaFunction.WaitOutcomeCases | lambda/lambda_function.py:27-42 | Let k be the position of the first response that ends the wait. The loop:<br>- keeps polling exactly while no response ends it, and polls k+1 times;<br>- returns the id exactly when that response is a FINISHED status;<br>- raises `"<description> failed: <error or 'Unknown error'>"` on FAILED;<br>- raises `"<description> was aborted"` on ABORTED;<br>- passes on the exception of a `describe_statement` call that raises. |
| LambdaFunction.WaitIgnoresLaterResponses | lambda/lambda_function.py:31-40 | Responses after the first one that ends the wait change neither the outcome nor the number of polls. |
| LambdaFunction.LambdaHandler | lambda/lambda_function.py:44-156 | The handler's two cases:<br>- **Overflow:** it raises before building the script.<br>- **Otherwise:** the COPY reads `S3Path(bucket, Prefix(now - 1h))`. The handler returns `{"status": "SUCCESS", "prefix": ...}` exactly when the wait returns; it re-raises the wait's exception message. |
| EtlScript.StripLetter | lambda/lambda_function.py:92 | `REPLACE(id, letter, '')` leaves no occurrence of the letter and keeps every other character with its multiplicity. |
| EtlScript.StripLetterConcat | lambda/lambda_function.py:92 | `REPLACE` keeps order: stripping a concatenation strips each part in turn, and a single character is dropped exactly when it is the letter. |
| EtlScript.SurrogateKey | lambda/lambda_function.py:126-128 | A surrogate id is a 32-bit INTEGER. A key made only of the letter, or empty, fails the cast. |
| EtlScript.StripRemovesEveryOccurrence | lambda/lambda_function.py:126 | The letter is removed wherever it stands: `P1P2` becomes patient 12. |
| EtlScript.SurrogateKeyOfNaturalKey | lambda/lambda_function.py:112 | A natural key written as the letter followed by a number up to 2^31-1 maps to that number. |
| EtlScript.PatientOf | lambda/lambda_function.py:92-95 | A patient row exists exactly when the staged patient id casts. Its id is that cast value and its name, age and gender are the staged ones. |
| EtlScript.HospitalOf | lambda/lambda_function.py:102-105 | A hospital row exists exactly when the staged hospital id casts. Its id is that cast value, its name and department are the staged ones, and `room_number` is the integer's decimal text. |
| EtlScript.DeviceOf | lambda/lambda_function.py:112-113 | A device row exists exactly when the staged device id casts. Its id is that cast value and its type is the staged one. |
| EtlScript.FactOf | lambda/lambda_function.py:125-141 | A fact row exists exactly when the patient, hospital and device ids all cast; the timestamp and measurement conversions are total here. Its key is (patient id, epoch ms of `timestamp`), it carries the hospital and device ids, and its alert is `AlertLabel(alert_flag)`. `ingestion_time` goes through the same epoch conversion, the measurements through their casts, and the other columns pass through unchanged. |
| EtlScript.AlertLabel | lambda/lambda_function.py:141 | `alert_flag = 1` gives 'Yes' and every other value gives 'No', both ways. |
| EtlScript.ProjectAll | lambda/lambda_function.py:91-96 | The SELECT list succeeds exactly when it succeeds on every staged record, and then yields one row per record, in order. |
| EtlScript.WithoutKeys | lambda/lambda_function.py:97 | `NOT IN (SELECT id ...)`: each row keeps its multiplicity when its key is absent, and has count zero when it is present. |
| EtlScript.Distinct | lambda/lambda_function.py:91 | `SELECT DISTINCT` yields the same set of rows, each once. |
| EtlScript.DimensionStep | lambda/lambda_function.py:89-115 | A dimension step succeeds exactly when every staged record's id casts, and then inserts no duplicate tuple. |
| EtlScript.FactStep | lambda/lambda_function.py:117-146 | Step 5 succeeds exactly when every staged record's three ids cast; the timestamp and measurement conversions are total here. No row it inserts has a key already in `vitals_fact`. |
| EtlScript.DimensionStepInsertsExactly | lambda/lambda_function.py:89-115 | A dimension step inserts no duplicate tuples. A tuple is inserted exactly when some staged record projects to it and its id was not in the table before the step. |
| EtlScript.DimensionIdsNotUnique | lambda/lambda_function.py:99-107 | Two staged records with one new id and different attributes both produce rows, so the table ends with two rows under that id. |
| EtlScript.FactStepInsertsExactly | lambda/lambda_function.py:117-146 | Step 5 inserts each projected row as many times as it was staged when its (patient id, epoch-ms timestamp) key is absent from `vitals_fact` before the step. It inserts no other row. |
| EtlScript.FactStepKeepsDuplicates | lambda/lambda_function.py:125-146 | Two identical staged records with a new key both become fact rows: there is no DISTINCT. |
| EtlScript.FactKeysStayUnique | lambda/lambda_function.py:143-146 | `vitals_fact` stays unique on (patient id, timestamp) when it was unique before and the staged keys are pairwise different. |
| EtlScript.RunScript | lambda/lambda_function.py:89-146 | Steps 2 to 5 only append: every table's previous contents are a prefix of its new contents, whether the run completes or stops at a failing cast. |
| EtlScript.RunScriptCompletes | lambda/lambda_function.py:89-146 | When every step succeeds, each table gains exactly its step's rows, each step reading the tables the previous one left. |
| EtlScript.RunScriptOutcome | lambda/lambda_function.py:92-128 | The run completes exactly when every staged patient, hospital and device id casts. Otherwise it stops at the first step whose ids do not all cast; step 5 never fails on an id cast. In the model the timestamp and measurement conversions cannot fail. |
| EtlScript.RunScriptStops | lambda/lambda_function.py:89-146 | The tables a stopped run leaves:<br>- a patient-id failure changes nothing;<br>- a hospital-id failure keeps only the patient rows;<br>- a device-id failure keeps only the patient and hospital rows. |
| EtlScript.RerunInsertsNothing | lambda/lambda_function.py:89-146 | Idempotence: right after any run, completed or stopped at a failing cast, a second run with the same staging ends the same way and leaves all four tables as the first run left them. |
| EtlScript.DimensionRerun | lambda/lambda_function.py:90-115 | A dimension step run again over the table it extended inserts nothing. |
| EtlScript.FactRerun | lambda/lambda_function.py:118-146 | Step 5 run again over the fact table it extended inserts nothing. |
| EtlScript.SingleRecordScenario | lambda/lambda_function.py:89-146 | Start from empty tables with one staged record for P1500, H12 and D1800, with `alert_flag` 1. The run completes with one row in each dimension, under ids 1500, 12 and 1800, and one fact row keyed (1500, epoch ms) with alert 'Yes'. |
| EtlScript.Warehouse.InsertPatients | lambda/lambda_function.py:90-97 | On success, the patient table gains exactly the step's rows. On a cast failure it is unchanged. The other tables are untouched. |
| EtlScript.Warehouse.InsertHospitals | lambda/lambda_function.py:100-107 | The same for the hospital dimension, with `room_number` stored as its VARCHAR rendering. |
| EtlScript.Warehouse.InsertDevices | lambda/lambda_function.py:110-115 | The same for the device dimension. |
| EtlScript.Warehouse.InsertFacts | lambda/lambda_function.py:118-146 | The fact table gains exactly the anti-join's rows, and the dimensions are untouched. |
| EtlScript.Warehouse.Run | lambda/lambda_function.py:89-146 | Executing the four statements in place leaves the tables and outcome that `RunScript` specifies. |
| CopyLoader.Pad2MatchesStrftime | lambda/lambda.py:28 | For values below 100, `{:02d}` prints the same two characters as strftime's `%m`/`%d`/`%H`. |
| CopyLoader.CopyPrefix | lambda/lambda.py:28 | For every instant, the `{:02d}` prefix equals the ETL loader's strftime prefix character for character. |
| CopyLoader.CopySource | lambda/lambda.py:42 | The COPY reads from `s3://`, the bucket, `/` and the same prefix as the ETL loader's staging COPY. |
| CopyLoader.CopyColumnsMatchStaging | lambda/lambda.py:34-41 | The COPY names the staging table's 23 columns, in its order, each once. |
| CopyLoader.LambdaHandler | lambda/lambda.py:19-72 | The handler's outcomes:<br>- **Overflow:** it raises, since the computation sits outside the `try`, and no COPY is built.<br>- **Otherwise:** the COPY reads `S3Path(bucket, Prefix(now - 1h))`.<br>- **Accepted submission:** status 200, with the message, the query id, and `s3_path` equal to the prefix.<br>- **Rejected submission:** status 500, with the error text. |

## Left out

- boto3 and the Redshift Data API: `execute_statement` and `describe_statement` are foreign calls, so their results are parameters (`Submission`, `StatusResponse`).
- Environment variables (workgroup, database, bucket, role ARN): configuration read at import time. The bucket is a parameter; the rest do not affect any modelled value.
- `print` logging and `time.sleep(2)`: output and timing with no effect on results.
- LambdaFunction.ExecuteAndWait: the source polls forever. The model consumes a finite sequence of statuses and reports `StillPolling` when it ends without a terminal one.
- The link between a FINISHED status and the script's effect on the tables: the service's execution is not visible. `EtlScript` models the effect on its own, and the handler takes the statuses as given.
- ISO-8601 parsing to epoch milliseconds, and the float casts to `INTEGER`, `NUMERIC(4,1)` and `NUMERIC(4,2)`: engine-specific float rounding. They are uninterpreted total functions in `Casts`. As a result, step 5 cannot fail in the model on a `timestamp` or `ingestion_time` that does not parse (lambda/lambda_function.py:129, :139), or on a measurement outside its column's range, such as a temperature of 1000.0 for `NUMERIC(4,1)` (lambda/lambda_function.py:135-138).
- EtlScript.RunScriptOutcome: "completes exactly when every id casts" holds for the model only. In the source the step-5 conversions above can also stop the run.
- EtlScript.FactStep: evaluates the SELECT list on every staged record, so on its own it fails when a record that the anti-join drops has a hospital or device id that does not cast. In SQL the list is evaluated, in principle, only for the rows `WHERE vf.patient_id IS NULL` keeps (lambda/lambda_function.py:127-128, :146). Inside `RunScript` the difference cannot show: steps 3 and 4 have already cast every id.
- Decimal.ParseInt: the engine's tolerance of surrounding whitespace in `CAST(... AS INTEGER)` is not modelled, because staged ids carry none.
- The `DROP TABLE`, `CREATE TEMP TABLE`, the staging `COPY` and Parquet decoding: the staging contents are an input.
- Redshift transaction atomicity. The model stops at the first step whose cast fails and keeps the earlier steps' rows; whether the engine rolls them back is engine behaviour.
- SQL NULL values and the `NOT IN` semantics they trigger: every staged value is present.
- Row order of query results. Each step appends in staging order; SQL guarantees no order, and no property here depends on it.
- The error texts the engine or boto3 produce: they are opaque strings.
- CopyLoader.LambdaHandler: the body is a structured value, not its `json.dumps` text. The exception text of a rejected submission is passed through as given.
- `healthcare-pipeline/producer.py`: random data generation and an infinite send loop. Only its field order informs `StagingRecord`.
