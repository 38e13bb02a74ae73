# Scouter server: verified model

This project models, in Dafny, the hard core of the Scouter server: its on-disk storage engine, its wire
codec, its streaming caches and its two step protocols, and proves what they are for. `dafny verify
dfyconfig.toml` checks all of it.

**Storage engine.** A bucket table of five-byte heads (`HashBlock.dfy`, `TimeBlock.dfy`) points into an
append-only file of records that are linked backward (`KeyFile.dfy`, `KeyFile2.dfy`, both over
`Layout.dfy`). Appends are buffered and flushed in batches. On top sit a multimap (`IndexKeyFile.dfy`), a
map with expiry times (`IndexKeyFile2.dfy`) and a time-range index (`IndexTimeFile.dfy`). A file is a byte
sequence together with a ghost log of the records in it; validity says that the bytes are exactly the
encoded records, that every link leads to the newest older record of its bucket, and that every head is
the newest record of its bucket. The meaning of an index is a scan of the log (`Chains.dfy`), and
`IndexRuns.dfy`, `TtlRuns.dfy`, `TimeRuns.dfy` and `Snapshot.dfy` prove that whole runs have it. The indexes are proved for
every hash function; the program passes the one of `Crc.dfy`. `Rehash.dfy` rebuilds an index with another
bucket count. `TextStore.dfy` and `DailyCounter.dfy` are the stores built on the index.

**Codec.** `Endian.dfy` and `DataStream.dfy` hold the integer, decimal, blob and array formats with the
buffer-mode writer and reader; `Values.dfy` the recursive values; `XLogPack.dfy` the versioned 43-field
record with its partial parser; `Packs.dfy` the framing by type code. For each format a function says what
a read at a position gives and where it ends, the methods of the reader are proved to compute it, and
round-trip lemmas connect it to what the writer appends. `KnownBytes.dfy` writes out the bytes of known
records, so that field order, widths and type codes do not rest on their own readers, and `Prefixes.dfy`
says what input that was cut short reads as.

**Caches.** `XLogCache.dfy` is the ring of transactions with its index per object, `AlertCache.dfy` the
ring of alerts, `Meter.dfy` the ring of seconds with the statistics per group. Each carries a ghost history
and is proved against it.

**Protocols.** `Datagrams.dfy` has the frames of the UDP port, `MultiPackets.dfy` the table of split packets
and `Processor.dfy` the worker; `PacketRuns.dfy` says what any history of datagrams and cleanups dispatches
and what it leaves in the table. `Pool.dfy` has the queue of agent connections as a class, and `PoolRuns.dfy` all interleavings of callers, registrations, the
keepalive daemon and shutdown as a state machine whose steps are the critical sections; a queue that has
left the map is still a place in it. `PoolRounds.dfy` says what whole calls, registrations, keepalive rounds
and shutdowns do, and which steps close a connection.

`Selections.dfy` has what it means that one list holds some elements of another, `Maps.dfy` Go's map
assignment and `Results.dfy` its `value, err`.

**Where the program and its comments or likely intent differ, the model follows the code.**

- A record whose header and key do not fit the 128-byte window (8 + key length + blob header above 128)
  can be written but not read; lookups that meet one fail. `Chains.LookupMeaning` says exactly when.
- A range read over the time index can miss records at the end of the range. `CompleteIffAligned` gives the
  exact condition. The comment at internal/db/io/mem_time_block.go:13 speaks of 48 hours; the bucket
  function covers one day in half-seconds.
- The filters of two group queries may compare equal and still select differently, if the first has an
  entry with value false (`Meter.MapsEqualMeaning`). The function is exported; the requests of this program
  (internal/netio/service/handler_group.go:25-33) pass filters without such entries.
- The connection pool can strand an open connection, because a queue is looked up and put to in separate
  critical sections and a put does not take the lock of the manager (`PoolRuns.StrandingRun` has two such
  runs). `PoolRuns.StrandsIff` and `LostIff` say exactly which steps do it, and `SettledRunIff` which runs
  are free of it.
- Repeated pieces of a split packet that arrive after it was complete open a new packet; a packet of one
  piece is dispatched again by each repetition (`PacketRuns.SplitPack`).
- A table that was flushed before the records it points to can be reloaded too early by another handle
  (`Snapshot.SafeReload`); a read at such a head finds no byte and fails.
- `GetRecentByObjHash` returns the oldest live entries up to its limit, not the newest.
- The cursor (-1, i) of the alert ring gets all alerts while there are fewer than i.
- Two counter names with the same 31-based hash share a record of the daily counter file.

**Preconditions.** File positions stay below 2^39, the limit of the five-byte format; keys are shorter than
65536 bytes and values shorter than 2^31; one handle at a time appends to a record file; clocks do not run
backward where a property depends on it; cursors of the rings are indices up to the size; the seconds of the
meter start at 599. Go integers are mathematical integers whose truncations are written out; counters and
sums do not overflow.

## Model

| member | source | states |
|---|---|---|
| IndexRuns.Ask | internal/db/io/index_key_file.go:45-166 | After every run of puts, deletes, flushes and reopenings, for every hash function: what GetAll answers are the values put since the last delete of the key, newest first; what Get answers is the first of them; what HasKey answers is whether there is one; they fail only if some put did not fit the read window, and Get exactly when HasKey does |
| IndexRuns.BindingsMeaning | internal/db/io/index_key_file.go:45-166 | The values of a key after a run are those of exactly the puts of the key that no later delete of it undoes, each once, the newest first |
| IndexRuns.Run | internal/db/io/index_key_file.go:45-241 | The same for keys of any length: scanning the record log gives every key those values, and the handle stays valid |
| IndexRuns.Step | internal/db/io/index_key_file.go:45-166 | Each single operation keeps the agreement with the reference meaning, and appends and deletes never change an older record beyond its flag |
| Chains.LookupMeaning | internal/db/io/index_key_file.go:68-95 | A chain walk fails exactly if a record whose header does not fit the read window comes before the newest readable match; otherwise it gives the first value of the scan of the whole log |
| Chains.ReadableLookup | internal/db/io/index_key_file.go:68-134 | If all records fit the read window, lookups never fail and depend only on the scan, not on bucket sharing |
| Chains.TombstonedScan | internal/db/io/index_key_file.go:136-166 | Deleting a key empties its scan and leaves that of every other key, also in the same bucket |
| Chains.ChainStep | internal/db/io/index_key_file.go:75-94 | A link leads to the newest older record of the bucket at a smaller position, and 0 means that there is none |
| Chains.LinkedAppend | internal/db/io/index_key_file.go:45-57 | Appending a record that points at its bucket head keeps all links right |
| IndexKeyFile.IndexKeyFile.Put | internal/db/io/index_key_file.go:45-57 | Adds one record for the key and value to the log and keeps links and bucket heads right |
| IndexKeyFile.IndexKeyFile.Get | internal/db/io/index_key_file.go:68-95 | The newest undeleted value of the key; an error exactly if an unreadable record blocks the walk; the log is unchanged |
| IndexKeyFile.IndexKeyFile.HasKey | internal/db/io/index_key_file.go:97-114 | Whether Get would find a value, with the same error condition |
| IndexKeyFile.IndexKeyFile.GetAll | internal/db/io/index_key_file.go:116-134 | All undeleted values, newest first; an error exactly if the bucket holds an unreadable record |
| IndexKeyFile.IndexKeyFile.Delete | internal/db/io/index_key_file.go:136-166 | Flags exactly the records of the key, returns how many it flagged, and keeps everything else |
| IndexKeyFile.IndexKeyFile.Read | internal/db/io/index_key_file.go:169-183 | Hands out exactly the undeleted records in file order; an error exactly if some record is unreadable |
| IndexKeyFile.IndexKeyFile.Flush | internal/db/io/index_key_file.go:238-241 | Closing brings table and records to disk so that they describe the same log |
| IndexKeyFile.IndexKeyFile.Reload | internal/db/io/index_key_file.go:234-236 | Re-reading the table makes the handle see the records of the moment at which the table was written |
| IndexKeyFile.IndexKeyFile.constructor | internal/db/io/index_key_file.go:25-43 | Opening existing files gives the log and the table that were saved, with the bucket count of the file |
| IndexRuns.Reopened | internal/db/io/index_key_file.go:25-43 | Closing and opening again keeps the log |
| KeyFile.RealKeyFile.Append | internal/db/io/real_key_file.go:444-465 | The new record follows the log and its position is the old length; the buffer is flushed exactly when it reaches 16384 bytes |
| KeyFile.RealKeyFile.Flush | internal/db/io/real_key_file.go:80-94 | Flushing is invisible: same log, same length, nothing pending |
| KeyFile.RealKeyFile.GetRecord | internal/db/io/real_key_file.go:119-136 | Reads at the position of record i exactly record i, with the start of record i+1 as offset; an error exactly if header and key exceed the 128-byte window |
| KeyFile.RealKeyFile.GetRecordReadAt | internal/db/io/real_key_file.go:141-224 | The decoding through the window and the second read returns the stored flag, link, key and value |
| KeyFile.RealKeyFile.OnDisk | internal/db/io/real_key_file.go:119-136 | A record that starts below fileEnd is completely on disk, so the unlocked read path never meets a partial one |
| KeyFile.RealKeyFile.SetDelete | internal/db/io/real_key_file.go:343-358 | Changes the flag of record i and nothing else |
| KeyFile.RealKeyFile.IsDeleted | internal/db/io/real_key_file.go:267-281 | The flag of record i |
| KeyFile.RealKeyFile.GetPrevPos | internal/db/io/real_key_file.go:283-297 | The link of record i |
| KeyFile.RealKeyFile.GetTimeKey | internal/db/io/real_key_file.go:299-320 | The key of record i, whatever its length |
| KeyFile.FlipFlag | internal/db/io/real_key_file.go:343-358 | Overwriting the flag byte rewrites one record in the file image and moves no record |
| KeyFile.RecPosOrder | internal/db/io/real_key_file.go:444-465 | Later records start at larger positions, so a position names one record |
| KeyFile.AppendedFile | internal/db/io/real_key_file.go:80-94 | Writing the buffer at the end of the file gives the file of the longer log |
| KnownBytes.KeyRecordBytes | internal/db/io/real_key_file.go:444-465 | The bytes of two records and of the file header |
| KnownBytes.ReadableIff | internal/db/io/real_key_file.go:119-136 | Header and key of a record fit the first read exactly if they take at most 128 bytes with the length prefix of the value |
| HashBlock.MemHashBlock.Put | internal/db/io/mem_hash_block.go:86-96 | Sets one bucket head and no other |
| HashBlock.MemHashBlock.Get | internal/db/io/mem_hash_block.go:68-73 | The head of the bucket of the hash |
| KnownBytes.Positions | internal/db/io/mem_hash_block.go:60-96 | Bucket b has its five bytes at 1024 + 5b; a hash belongs to the bucket of its low 31 bits modulo the bucket count; five minutes c of counter record i have their eight bytes at 2306i + 2 + 8c |
| HashBlock.MemHashBlock.Flush | internal/db/io/mem_hash_block.go:98-106 | A dirty table is written out in full, a clean one not at all |
| HashBlock.MemHashBlock.Reload | internal/db/io/mem_hash_block.go:120-137 | The heads become those of the file, with its bucket count |
| Snapshot.WriterRuns | internal/db/io/index_key_file.go:116-134 | While a writer runs any puts, deletes and flushes, a second handle stays valid and sees exactly the records it saw before, with the flags they carry now |
| Snapshot.ReaderLater | internal/db/io/mem_hash_block.go:120-137 | Heads from an earlier moment over the later file are still the heads of the earlier records |
| Snapshot.SafeReload | internal/db/io/mem_hash_block.go:120-137 | A table may be reloaded over the records that are on disk exactly if all its heads lie below their end; otherwise a head points to where the file has no byte |
| Rehash.RehashDiv | internal/db/text/rehash.go:91-177 | Unless it is skipped or fails on an unreadable record, the new index answers every Get, HasKey and GetAll as the old one, has the requested bucket count, and the number inserted is the number of live records |
| Rehash.InsertAll | internal/db/text/rehash.go:161-177 | Inserting the streamed records one by one makes them, in this order, the live records of the new index |
| Rehash.SameLive | internal/db/text/rehash.go:162-177 | Equal live records in file order give equal answers, including order, for any two bucket counts |
| Rehash.ScanOfLive | internal/db/io/index_key_file.go:169-183 | Deleted records and links do not matter for the meaning of an index |
| TtlRuns.Run | internal/db/io/index_key_file2.go:48-344 | Every run of PutTTL, UpdateOrPutTTL, SetTTL, Get, HasKey, Delete, GetAndRefreshTTL, flushes of records and table, and closing and opening again answers as a plain map from key to value and expiry does, for every hash function |
| TtlRuns.PutLives | internal/db/io/real_key_file2.go:515-544 | A lookup right after a put or update with a time-to-live gives the value exactly up to the second now + ttl as the five bytes of the format hold it (so up to now + ttl itself between -2^39 and 2^39-1), and with a negative time-to-live exactly up to second 2^39-1 |
| TtlRuns.RefreshLives | internal/db/io/real_key_file2.go:273-295 | Setting or refreshing the time-to-live of a live key moves the end of its value to there; of a key that is not live it changes no answer |
| TtlRuns.OthersStay | internal/db/io/index_key_file2.go:48-344 | An operation on another key, and every flush, lookup and reopening, leaves all answers about a key as they are; a deleted key has no value at any time |
| TtlRuns.AnswersAgree | internal/db/io/index_key_file2.go:149-344 | HasKey, SetTTL and GetAndRefreshTTL answer what Get answers; Delete counts the key if it would have a value at some time; nothing is found in an empty index |
| TtlRuns.GoneStaysGone | internal/db/io/index_key_file2.go:109-186 | With a clock that never runs back a key that is deleted or expired stays gone until it is put again |
| IndexKeyFile2.IndexKeyFile2.PutTTL | internal/db/io/index_key_file2.go:48-60 | Binds the key to the value and its expiry; all other bindings stay |
| IndexKeyFile2.IndexKeyFile2.UpdateOrPutTTL | internal/db/io/index_key_file2.go:68-106 | The same binding whether the record is rewritten in place or a new one is appended |
| IndexKeyFile2.IndexKeyFile2.SetTTL | internal/db/io/index_key_file2.go:109-146 | Changes the expiry of a live key; reports whether the key was live |
| IndexKeyFile2.IndexKeyFile2.Get | internal/db/io/index_key_file2.go:149-186 | The value of the newest record of the key if it is undeleted and not expired |
| IndexKeyFile2.IndexKeyFile2.HasKey | internal/db/io/index_key_file2.go:189-213 | Whether Get would give a value |
| IndexKeyFile2.IndexKeyFile2.Delete | internal/db/io/index_key_file2.go:250-280 | Removes the binding and counts it |
| IndexKeyFile2.IndexKeyFile2.GetAndRefreshTTL | internal/db/io/index_key_file2.go:301-344 | The live value, with its expiry moved |
| IndexKeyFile2.EntriesUpdate | internal/db/io/real_key_file2.go:464-507 | Rewriting the newest record of a key in place rebinds the key |
| KeyFile2.RealKeyFile2.Update | internal/db/io/real_key_file2.go:464-507 | Succeeds exactly if the new value is not longer than the stored one; then it rewrites the record inside its own slot and touches no other |
| KeyFile2.RealKeyFile2.AppendTTL | internal/db/io/real_key_file2.go:515-544 | The new record with its expiry follows the log |
| KeyFile2.RealKeyFile2.IsDeletedOrExpired | internal/db/io/real_key_file2.go:234-247 | Whether the record is flagged or its expiry is before now |
| KeyFile2.RealKeyFile2.SetTTL | internal/db/io/real_key_file2.go:273-295 | Changes the expiry of one record and nothing else |
| KeyFile2.WriteInSlot | internal/db/io/real_key_file2.go:464-507 | A write inside the slot of a record changes that slot and moves none |
| KnownBytes.TtlRecordBytes | internal/db/io/real_key_file2.go:515-544 | The bytes of a record with an expiry time |
| IndexTimeFile.CompleteIffAligned | internal/db/io/index_time_file.go:133-178 | A range read misses no record of the range, whatever the day holds, if and only if stime is not further into its half-second than etime into its own; so forward reads are complete when stime starts a half-second, backward reads when etime ends one |
| TimeRuns.Ask | internal/db/io/index_time_file.go:42-178 | After every run of puts, deletes and flushes in a day, what a forward or backward read of an aligned range gives inside the range is exactly what was put and whose half-second was not deleted since, in order of time; nothing else is ever read |
| TimeRuns.OneMoreOperation | internal/db/io/index_time_file.go:42-128 | Over any run: a put at t > 0 adds its item as the last one; a delete at t takes exactly the items of the interval of 500 ms, counted from midnight, that has t in it, and keeps order and number of all others; a flush changes nothing |
| TimeRuns.SameIff | internal/db/io/mem_time_block.go:61-65 | Two times go together exactly when one interval of 500 ms that starts at a multiple of 500 ms after midnight has both |
| TimeRuns.InRangeMeaning | internal/db/io/index_time_file.go:182-205 | What lies in a range are exactly the items from stime to etime, both included, in their order and number |
| TimeRuns.Run | internal/db/io/index_time_file.go:42-128 | After every such run the undeleted records are what remains of the puts |
| TimeRuns.Step | internal/db/io/index_time_file.go:42-128 | One operation changes what remains as the reference says; a delete counts what it removes |
| TimeRuns.DeleteAlive | internal/db/io/index_time_file.go:103-128 | Flagging one bucket removes the items of one half-second of the day |
| TimeRuns.BetweenIsInRange | internal/db/io/index_time_file.go:133-178 | The two references of a range read agree |
| IndexTimeFile.IndexTimeFile.Read | internal/db/io/index_time_file.go:133-153 | Emits the undeleted records of the visited half-seconds, each once, and in ascending time order if all records are of one day |
| IndexTimeFile.IndexTimeFile.ReadFromEnd | internal/db/io/index_time_file.go:158-178 | The same records for the backward half-seconds in descending time order |
| IndexTimeFile.IndexTimeFile.ReadWithDataReader | internal/db/io/index_time_file.go:182-205 | Emits for exactly the visited records inside the range, in ascending order, the time and what the reader finds at the signed five-byte position of the record; panics exactly if one of them is too short for a position |
| IndexTimeFile.IndexTimeFile.GetSecAll | internal/db/io/index_time_file.go:56-87 | The undeleted records of one half-second, each once, sorted by time |
| IndexTimeFile.IndexTimeFile.Put | internal/db/io/index_time_file.go:42-54 | Appends the record under its time; rejects times that are not positive |
| IndexTimeFile.IndexTimeFile.Delete | internal/db/io/index_time_file.go:103-128 | Flags the records of the half-second, counts them and empties the bucket |
| IndexTimeFile.ItemsAfterDelete | internal/db/io/index_time_file.go:103-128 | Deleting a half-second removes its records from every read and no others |
| IndexTimeFile.VisitedBuckets | internal/db/io/index_time_file.go:133-178 | Which half-seconds a range read visits, and which one it skips if the range is not aligned |
| TimeBlock.MemTimeBlock.Put | internal/db/io/mem_time_block.go:91-101 | Sets the head of one half-second and no other |
| TimeBlock.BucketInDay | internal/db/io/mem_time_block.go:61-65 | Within one day the bucket of a time is the number k, below 172800, of the interval from midnight + 500k to midnight + 500k + 500 that has it |
| TextStore.TextWR.Run | internal/db/text/text_wr.go:89-126 | After every run of writes, whatever the cache evicts, each div and hash has the text it had before or else the first one written |
| TextStore.TextWR.Process | internal/db/text/text_wr.go:89-126 | A write stores its text only if the pair has none; the cache holds only stored pairs, gains a new one and, at 100000, first loses 10000 |
| TextStore.TextWR.Evict | internal/db/text/text_wr.go:113-124 | Eviction drops a tenth of the capacity, in any order |
| TextStore.TextWR.GetString | internal/db/text/text_wr.go:147-174 | The text of the pair, or the empty one if it has none |
| TextStore.FirstTextMeaning | internal/db/text/text_wr.go:89-126 | FirstText is the text of the earliest write of the pair |
| TextStore.TextPermTable.Set | internal/db/text/text_perm_table.go:81-107 | First write wins for the pair; all other pairs of all divs keep their texts |
| TextStore.TextPermTable.Get | internal/db/text/text_perm_table.go:111-139 | The stored text, and no text changes |
| TextStore.TextPermTable.GetFiles | internal/db/text/text_perm_table.go:41-77 | Opening the files of a div changes no text |
| TextStore.DivStore.Set | internal/db/text/text_perm_table.go:81-107 | First write wins within a div, through the data file and the index |
| TextStore.DivStore.Get | internal/db/text/text_perm_table.go:111-139 | The stored text of a hash, through the pointer in the index |
| TextStore.DivStore.HasKey | internal/db/text/text_perm_table.go:142-153 | Whether the hash has a text |
| TextStore.HashKeyInjective | internal/db/text/text_perm_table.go:172-176 | Different hashes have different keys |
| KnownBytes.KeyBytes | internal/db/text/text_perm_table.go:172-176 | The bytes of a text hash and of a counter key |
| KnownBytes.TextBytes | internal/db/text/text_perm_data.go:27-51 | Texts stand one after the other, each behind its four-byte length |
| TextStore.TextPermData.Write | internal/db/text/text_perm_data.go:27-51 | Appends a text and returns where it starts; older texts stay |
| TextStore.TextPermData.Read | internal/db/text/text_perm_data.go:54-73 | Reads the text that starts at the position |
| DailyCounter.DailyCounterData.WriteAll | internal/db/counter/daily_counter.go:94-145 | After any run of writes each object, name hash and bucket has the value of the last write to it, or none |
| DailyCounter.LastWriteMeaning | internal/db/counter/daily_counter.go:94-145 | The value of a cell is that of the last entry for its object, name hash and bucket, nothing if that is NaN, and stays if there is no entry; buckets from 288 on are never entered |
| DailyCounter.DailyCounterData.Write | internal/db/counter/daily_counter.go:94-145 | Sets one cell and no other; a bucket outside the day changes nothing; NaN erases |
| DailyCounter.DailyCounterData.Read | internal/db/counter/daily_counter.go:148-178 | The value of the cell, nothing for an absent one |
| DailyCounter.DailyCounterData.ReadAll | internal/db/counter/daily_counter.go:181-205 | The 288 values of the counter, NaN exactly where Read finds nothing |
| DailyCounter.DailyCounterData.Locate | internal/db/counter/daily_counter.go:104-136 | A new counter gets a record of its own in which every cell is absent; no cell of another counter changes |
| DailyCounter.CellsApart | internal/db/counter/daily_counter.go:138-143 | Cells of different records or buckets never overlap |
| DailyCounter.CellWritten | internal/db/counter/daily_counter.go:138-143 | Writing a cell changes that cell only |
| DailyCounter.CounterKeyInjective | internal/db/counter/daily_counter.go:77-83 | Counters share a record exactly if object and name hash are equal |
| DailyCounter.NamesMayCollide | internal/db/counter/daily_counter.go:85-91 | Two different names with the same hash exist, so they share a record |
| DailyCounter.HashStrMeaning | internal/db/counter/daily_counter.go:85-91 | The hash of a name is the sum of s[i] * 31^(n-1-i) in 32-bit two's complement |
| DailyCounter.NaNBits | internal/db/counter/daily_counter.go:173-177 | A value is absent exactly if its bits without the sign exceed those of infinity, 0x7FF0000000000000 |
| DailyCounter.BucketOfTime | internal/db/counter/daily_counter.go:57-73 | Clock reading and seconds of a time give the same bucket, which starts at most five minutes before |
| DailyCounter.MakeCounterKey | internal/db/counter/daily_counter.go:77-91 | The loop computes the key of object and 31-based name hash |
| DataStream.DecimalRoundTrip | internal/protocol/datainx.go:186-223 | ReadDecimal inverts WriteDecimal on every 64-bit value and stops at its end |
| DataStream.DecimalShortest | internal/protocol/dataoutx.go:177-200 | No encoding that ReadDecimal accepts for a value is shorter than the one WriteDecimal writes |
| DataStream.BlobRoundTrip | internal/protocol/datainx.go:225-248 | ReadBlob inverts WriteBlob on every blob below 2^31 bytes |
| DataStream.ArrayRoundTrip | internal/protocol/datainx.go:314-360 | Arrays of at most 32767 elements come back |
| DataStream.ArrayWithinLimits | internal/protocol/datainx.go:314-360 | No array that is read has more elements |
| Prefixes.DecimalOf | internal/protocol/datainx.go:186-223 | On every input: the width byte is the number of bytes up to five and means eight above; what follows is a signed big-endian number or the data has ended |
| Prefixes.BlobOf | internal/protocol/datainx.go:225-248 | On every input: mark 255 announces two unsigned bytes of length, mark 254 four signed ones, any other byte is the length itself; too little data is an error and a negative length panics |
| KnownBytes.Decimals | internal/protocol/dataoutx.go:177-200 | The bytes of the decimals on both sides of each change of width, up to three bytes |
| KnownBytes.LongDecimals | internal/protocol/dataoutx.go:177-200 | The same for four bytes |
| KnownBytes.FiveByteDecimals | internal/protocol/dataoutx.go:177-200 | The same for five bytes |
| KnownBytes.WideDecimals | internal/protocol/dataoutx.go:177-200 | The first numbers that need eight bytes |
| KnownBytes.BlobHeaders | internal/protocol/dataoutx.go:202-221 | The length prefix for every length: the byte itself up to 253, mark 255 and two bytes up to 65535, mark 254 and four bytes above |
| DataStream.DataOutputX.Reset | internal/protocol/dataoutx.go:41-44 | Forgets what was written |
| DataStream.DataOutputX.WriteDecimal | internal/protocol/dataoutx.go:177-200 | Appends exactly the decimal encoding |
| DataStream.DataOutputX.WriteBlob | internal/protocol/dataoutx.go:202-221 | Appends exactly the blob encoding |
| DataStream.DataOutputX.WriteArrayInt | internal/protocol/dataoutx.go:244-278 | Appends count and elements |
| DataStream.DataInputX.ReadDecimal | internal/protocol/datainx.go:186-223 | Result, error and cursor are those of the decimal at the cursor |
| DataStream.DataInputX.ReadBlob | internal/protocol/datainx.go:225-248 | Result, error and cursor are those of the blob at the cursor; a negative length that passes the bounds test panics |
| DataStream.DataInputX.ReadBlobRef | internal/protocol/datainx.go:255-288 | The zero-copy form has the same result, error and cursor, and panics alike |
| DataStream.DataInputX.ReadArrayInt | internal/protocol/datainx.go:314-328 | The loop reads count elements and stops at the first error; a negative count panics |
| DataStream.DataInputX.SkipBytes | internal/protocol/datainx.go:394-404 | Moves the cursor as a read of n bytes would |
| Endian.IntsAreSigned | internal/protocol/endian.go:12-30 | The three- and five-byte readers sign-extend the big-endian number |
| KnownBytes.PutByte | internal/protocol/endian.go:42-60 | Byte i of n big-endian bytes is the number divided by 256^(n-1-i), modulo 256, for negative numbers too |
| Endian.PutKeeps | internal/protocol/endian.go:42-60 | Writing any number in n bytes keeps its remainder by 256^n |
| Endian.Int5Wraps | internal/protocol/endian.go:24-39 | Writing and reading any number in five bytes wraps it around at 2^39 |
| Endian.PutInts | internal/protocol/endian.go:17-39 | The three- and five-byte writers write two's complement |
| Endian.Int5RoundTrip | internal/protocol/endian.go:24-39 | Five bytes hold exactly the values from -2^39 to 2^39-1 |
| Endian.Int3RoundTrip | internal/protocol/endian.go:12-21 | Three bytes hold exactly the values from -2^23 to 2^23-1 |
| Values.ValueRoundTrip | internal/protocol/value/value.go:77-83 | Reading a written value tree, followed by any bytes, returns the tree with nils as nulls and stops at its end |
| Values.RoundTripIff | internal/protocol/value/value.go:153-164 | A written value comes back if and only if its lengths keep the limits of the format |
| Values.ReadsWithinLimits | internal/protocol/value/value.go:153-164 | Whatever the bytes, a value that is read keeps the limits and holds no nil |
| Prefixes.ValueLonger | internal/protocol/value/value.go:153-164 | What a successful read of a value returns, and where it ends, does not depend on what follows |
| Prefixes.CutValue | internal/protocol/value/value.go:153-164 | No proper prefix of a written value tree can be read as a value |
| Prefixes.Rejected | internal/protocol/value/value.go:36-75 | Every type code but the seventeen known ones is an error with that code, and so is every pack code but 10 and 21; negative counts panic; the end of the data is an error |
| KnownBytes.Scalars | internal/protocol/value/value.go:9-27 | The bytes of a null, a nil, two booleans, a decimal and an address, type code first |
| KnownBytes.FixedWidths | internal/protocol/value/value.go:9-27 | The bytes of a float, a double and a text hash |
| KnownBytes.Texts | internal/protocol/value/value.go:9-27 | The bytes of a text and a blob |
| KnownBytes.Summaries | internal/protocol/value/value.go:9-27 | The bytes of the two summaries: sum, count, minimum, maximum |
| KnownBytes.ListBytes | internal/protocol/value/list_value.go:17-26 | The bytes of a list with a boolean and a null |
| KnownBytes.MapBytes | internal/protocol/value/map_value.go:22-32 | The bytes of a map with two entries |
| KnownBytes.IntArrays | internal/protocol/value/value.go:9-27 | The bytes of an array of integers, with a negative one |
| KnownBytes.OtherArrays | internal/protocol/value/value.go:9-27 | The bytes of an array of floats and one of longs |
| KnownBytes.TextArrays | internal/protocol/value/value.go:9-27 | The bytes of an array of two texts |
| Values.ValuesRoundTrip | internal/protocol/value/list_value.go:17-26 | The elements of a list come back in order |
| Values.EntriesRoundTrip | internal/protocol/value/map_value.go:22-32 | The entries of a map come back in order |
| Values.WriteValue | internal/protocol/value/value.go:77-83 | Appends type code and body; a nil becomes a null |
| Values.WriteValues | internal/protocol/value/list_value.go:17-26 | The loop over a list appends the encodings of its elements |
| Values.WriteEntries | internal/protocol/value/map_value.go:22-32 | The loop over a map appends keys and values |
| Values.ReadValue | internal/protocol/value/value.go:153-164 | Result, error and cursor are those of the value at the cursor |
| Values.ReadBody | internal/protocol/value/value.go:36-75 | Dispatches on the type code; an unknown code is an error and a negative count panics |
| Values.ReadValues | internal/protocol/value/list_value.go:61-75 | The loop reads count values and stops at the first error |
| Values.ReadEntries | internal/protocol/value/map_value.go:34-52 | The loop reads count keys and values and stops at the first error |
| XLogPack.XLogRoundTrip | internal/protocol/pack/xlog_pack.go:128-182 | Read inverts Write on all 43 fields, whatever the reader held before |
| XLogPack.CutAtBoundary | internal/protocol/pack/xlog_pack.go:292-411 | A record cut at any boundary of its twelve optional groups reads as the leading fields, and the later fields stay as they were |
| Prefixes.ReadableIffBoundary | internal/protocol/pack/xlog_pack.go:193-414 | A record that was cut anywhere can be read if and only if it was cut where its mandatory fields or one of its twelve optional groups end |
| KnownBytes.RecordBytes | internal/protocol/pack/xlog_pack.go:128-182 | All bytes of a record whose 43 fields have different values: their order and widths, behind the length |
| KnownBytes.GroupOrder | internal/protocol/pack/xlog_pack.go:128-182 | Of every record: mandatory fields and the twelve groups stand in this order |
| XLogPack.FilterAgrees | internal/protocol/pack/xlog_pack.go:79-125 | On every input on which the full read succeeds the filter returns its ObjHash and Elapsed |
| XLogPack.FilterIff | internal/protocol/pack/xlog_pack.go:79-125 | The filter succeeds exactly if the first seven fields can be read, even on input that the full read rejects further on, and then gives two of them |
| XLogPack.XLogPack.Write | internal/protocol/pack/xlog_pack.go:128-182 | Appends the fields in wire order as one blob |
| XLogPack.XLogPack.Read | internal/protocol/pack/xlog_pack.go:185-414 | Fields and cursor, or the error, are those of the versioned read at the cursor |
| XLogPack.XLogPack.ReadInner | internal/protocol/pack/xlog_pack.go:193-414 | The twenty mandatory fields and then each group only if bytes are left |
| XLogPack.ReadXLogFilterFields | internal/protocol/pack/xlog_pack.go:79-125 | The partial parser returns what FilterAt says |
| Packs.PackRoundTrip | internal/protocol/pack/pack.go:77-99 | Reading a written map or xlog pack returns it and stops at its end |
| Prefixes.CutPack | internal/protocol/pack/pack.go:83-99 | No proper prefix of a written pack can be read as a pack |
| KnownBytes.PackBytes | internal/protocol/pack/pack.go:77-80 | The bytes of a map pack, behind code 10; an xlog pack is its record behind code 21 |
| Packs.FilterOfPack | internal/protocol/pack/xlog_pack.go:79-125 | On a written xlog pack the filter returns the ObjHash and Elapsed of that pack |
| Packs.ReadPack | internal/protocol/pack/pack.go:83-99 | Reads the pack that the type code announces; other codes are errors |
| Packs.WritePackXLog | internal/protocol/pack/pack.go:77-80 | Appends type code and record |
| Packs.WritePackMap | internal/protocol/pack/pack.go:77-80 | Appends type code, count and entries |
| Packs.WriteMapPack | internal/protocol/pack/map_pack.go:25-32 | Appends count and entries |
| PacketRuns.SplitPack | internal/netio/udp/processor.go:112-149 | After any history that does not know the packet, and any mixture of its pieces, in any order and with repetitions, with other datagrams, losses and cleanups: a piece dispatches the pack exactly if it brings the last number that is missing since the pack was last complete, lost or expired, and nothing otherwise |
| PacketRuns.OneRound | internal/netio/udp/multipacket.go:56-91 | A packet that is not lost to a full table and not expired is complete with the last missing number and not before, however the others are ordered, repeated and mixed |
| PacketRuns.NeverFull | internal/netio/udp/multipacket.go:61-69 | As long as the pieces of at most 1000 packets come, no packet is ever lost to a full table |
| PacketRuns.Tracked | internal/netio/udp/multipacket.go:56-110 | What the table knows of a packet is what its pieces have brought since it was last complete, lost or expired |
| Processor.NetDataProcessor.WorkerLoop | internal/netio/udp/processor.go:50-54 | After every mixture of datagrams and rounds of the cleanup, of any length, the dispatcher was given exactly what the history says, and the table knows of every packet exactly what the history says |
| Processor.NetDataProcessor.Process | internal/netio/udp/processor.go:56-85 | A datagram dispatches what the history of all earlier ones says: the packs it carries, the pack that its piece completes, or nothing; a packet is lost exactly if a piece of a new one meets a full table of 1000 |
| Processor.NetDataProcessor.CleanupRound | internal/netio/udp/multipacket.go:93-110 | A round of the cleanup dispatches nothing and makes the table forget exactly the packets opened more than ten seconds ago |
| Processor.NetDataProcessor.ProcessCafeMTU | internal/netio/udp/processor.go:112-149 | A bad header changes nothing; a piece dispatches the pack read from all pieces if it is the last one missing, and leaves what is known of other packets as it was but for at most one packet that a full table loses |
| Processor.NetDataProcessor.Register | internal/netio/udp/processor.go:138-148 | The piece is counted with those that came before it; the last missing one dispatches the pack read from all of them |
| Processor.NetDataProcessor.ProcessCafeN | internal/netio/udp/processor.go:96-110 | Dispatches the announced packs in order up to the first that cannot be read |
| Processor.NetDataProcessor.ProcessCafe | internal/netio/udp/processor.go:87-94 | Dispatches the one pack |
| Datagrams.PieceIsRead | internal/netio/udp/processor.go:112-137 | A piece comes out of its datagram as it was framed |
| Datagrams.OnePack | internal/netio/udp/processor.go:87-94 | A datagram with magic 0x43414645 or 0x4a415641 and a pack carries exactly that pack, whatever follows it |
| Datagrams.Kinds | internal/netio/udp/processor.go:75-84 | Which kind a datagram has is in its first four bytes, read as letters: CAFE, JAVA, CAFN and JAVN carry packs, CAFM and JMTU a piece; any other carries nothing |
| Prefixes.CutPiece | internal/netio/udp/processor.go:112-137 | A piece whose datagram was cut short is not taken for a piece |
| Prefixes.CutDatagram | internal/netio/udp/processor.go:96-110 | A datagram that announces n packs and ends in the middle of one dispatches exactly the packs before that one, in order |
| KnownBytes.FrameBytes | internal/netio/udp/processor.go:112-137 | The bytes of the header of a piece, field by field |
| Datagrams.MtuRoundTrip | internal/netio/udp/processor.go:112-137 | The header and piece of a split packet are read as they were framed |
| Datagrams.ManyPacks | internal/netio/udp/processor.go:96-110 | Up to 32767 packs in one datagram are dispatched in order |
| MultiPackets.MultiPacketProcessor.Add | internal/netio/udp/multipacket.go:56-91 | Returns the pieces in order exactly when the last missing number arrives and then forgets the packet; a first piece wins over its repetitions; a full table of 1000 loses one entry to a new one; a negative total panics; what is known of all other packets stays |
| MultiPackets.MultiPacketProcessor.Cleanup | internal/netio/udp/multipacket.go:93-110 | Exactly the entries older than ten seconds go |
| MultiPackets.Reassembly | internal/netio/udp/multipacket.go:24-34 | Complete pieces of a payload, in whatever order and multiplicity they arrived, reassemble to the payload |
| MultiPackets.CompleteIff | internal/netio/udp/multipacket.go:20-22 | All slots are filled exactly if every number has arrived, which is what the count says |
| MultiPackets.Arrive | internal/netio/udp/multipacket.go:80-84 | A fragment fills the slot of its number if that is free and nothing else |
| MultiPackets.FirstDecides | internal/netio/udp/multipacket.go:56-91 | Total and time of a waiting packet are those of its first fragment, whatever the later ones say |
| MultiPackets.JoinedMeaning | internal/netio/udp/multipacket.go:24-34 | Joining pieces is concatenation in their order |
| MultiPackets.Receive | internal/netio/udp/multipacket.go:80-84 | After each fragment the count is the number of filled slots |
| MultiPackets.ToBytes | internal/netio/udp/multipacket.go:24-34 | The loop joins the fragments |
| XLogCache.XLogCache.Get | internal/core/cache/xlog_cache.go:82-119 | For every cursor the scan returns exactly the entries from Start on that failed or took at least minElapsed, in their order and number; for every set of objects the index returns those of the objects, in the same order per object |
| XLogCache.PassingMeaning | internal/core/cache/xlog_cache.go:156-166 | The entries that pass are exactly those that failed or took at least minElapsed, in the order and number in which they were put |
| XLogCache.DueMeaning | internal/core/cache/xlog_cache.go:122-138 | The same for a set of objects: failed or slow enough, and of one of the objects |
| XLogCache.OfObjectMeaning | internal/core/cache/xlog_cache.go:122-138 | The entries of an object are exactly those with its hash, in their order and number |
| XLogCache.StartMeaning | internal/core/cache/xlog_cache.go:96-115 | An entry comes from Start on exactly if the ring still holds it and, unless the cursor is of a later loop, it was put at or after the cursor |
| XLogCache.XLogCache.Scan | internal/core/cache/xlog_cache.go:95-116 | The three cases of the scan give what the client is due, in order |
| XLogCache.XLogCache.Put | internal/core/cache/xlog_cache.go:42-76 | Keeps that each index list holds the live slots of its object in write order |
| XLogCache.DropHead | internal/core/cache/xlog_cache.go:46-58 | The overwritten slot is always the head of its object's list |
| XLogCache.RangeIs | internal/core/cache/xlog_cache.go:141-153 | A live slot is in range exactly if its entry is new to the client |
| XLogCache.PickedIs | internal/core/cache/xlog_cache.go:122-138 | Walking an index list picks the due entries of that object |
| XLogCache.WrappedIs | internal/core/cache/xlog_cache.go:100-115 | The end of the ring followed by its beginning is a stretch of the history |
| XLogCache.ObjectByObject | internal/core/cache/xlog_cache.go:122-138 | Collecting object by object gives the same multiset as filtering |
| XLogCache.XLogCache.CopyFromIndex | internal/core/cache/xlog_cache.go:122-138 | Per object exactly the due entries, for any iteration order of the set |
| XLogCache.XLogCache.Stream | internal/core/cache/xlog_cache.go:82-119 | A client that feeds its cursor back gets of each batch the last size entries |
| XLogCache.NothingLost | internal/core/cache/xlog_cache.go:82-119 | So a client that is never more than size entries behind gets every entry once and in order |
| XLogCache.StartOfCursor | internal/core/cache/xlog_cache.go:96-115 | A cursor that was current after n puts asks for the entries since, or the last size ones |
| XLogCache.XLogCache.GetRecent | internal/core/cache/xlog_cache.go:169-183 | The newest entries, oldest first |
| XLogCache.XLogCache.GetRecentByObjHash | internal/core/cache/xlog_cache.go:186-200 | The oldest live entries of the object up to the limit |
| AlertCache.AlertCache.GetSince | internal/core/cache/alert_cache.go:38-82 | A client less than a ring behind gets exactly what was added since its cursor, any other nothing; all get the current cursor |
| AlertCache.AlertCache.Add | internal/core/cache/alert_cache.go:25-34 | Adds one alert to the history and keeps the ring |
| AlertCache.AlertCache.Stream | internal/core/cache/alert_cache.go:38-82 | A client that feeds its cursor back gets each batch of fewer than size alerts in full and of a larger one nothing |
| Meter.MeterService.GetPerfStat | internal/core/xlog_group_perf.go:81-95 | With a clock that never runs back: the exact counts, errors and elapsed sums of the events of the last seconds, at most ten minutes |
| Meter.SumMeaning | internal/core/xlog_group_perf.go:63-95 | The sums of a window are the number of its events, the number of those that failed and the total of their elapsed times |
| Meter.OfGroupMeaning | internal/core/xlog_group_perf.go:184-216 | The events of a group are those of exactly the calls with that group whose object the filter names with true, or of all objects if the filter is empty |
| Meter.ThirtySeconds | internal/core/xlog_group_perf.go:195-209 | The statistics of a group cover the thirty seconds up to and including the current one |
| Meter.MeterService.Add | internal/core/xlog_group_perf.go:63-79 | Records the event; each bucket holds the sums of the newest second that fell into it |
| Meter.MeterService.Lookup | internal/core/xlog_group_perf.go:84-93 | A second of the window is in its bucket or was idle |
| Meter.XLogGroupPerf.GetGroupPerfStat | internal/core/xlog_group_perf.go:184-216 | Per group the sums over the selected objects for the last thirty seconds before each meter was read or, within a second and for a filter that compares equal, the cached ones |
| Meter.XLogGroupPerf.Aggregate | internal/core/xlog_group_perf.go:195-209 | The loop over the meters, in any order and with the clock read anew for each, gives exactly the groups with events and their sums |
| Meter.XLogGroupPerf.Add | internal/core/xlog_group_perf.go:142-179 | Records the call unless it has no group; exactly a new key at 2000 meters costs one arbitrary key its calls; all other keys stay |
| Meter.NextKey | internal/core/xlog_group_perf.go:196-209 | Merging the sums of one more meter extends the result by that meter |
| Meter.SteadyClock | internal/core/xlog_group_perf.go:195-209 | If the second does not change meanwhile, the result is that of all selected events of the last thirty seconds |
| Meter.CompareMaps | internal/core/xlog_group_perf.go:218-228 | The loop decides MapsEqual |
| Meter.MapsEqualMeaning | internal/core/xlog_group_perf.go:218-228 | Filters that compare equal select the same objects if and only if the first has no false entry |
| Meter.FalseEntry | internal/core/xlog_group_perf.go:218-228 | Filters that compare equal and select differently exist |
| PoolRuns.Exclusive | internal/netio/tcp/agent_manager.go:43-113 | In every interleaving: no two goroutines hold one worker, none is held and queued, none is queued twice; an open worker is always somewhere; queues and map keep their limits; one goroutine at a time is inside the lock |
| PoolRounds.ClosedIff | internal/netio/tcp/agent_manager.go:43-270 | A step closes a worker, or drops it, exactly if the worker is at hand and its connection fails, it is rejected, its queue is full, it was found closed, or the shutdown closes it; no other step closes or drops any |
| PoolRounds.KeepaliveRound | internal/netio/tcp/agent_manager.go:215-248 | A round of the keepalive daemon while nothing else runs and no connection fails keeps every queue with its workers in order, closes none, and removes exactly the empty queues from the map |
| PoolRounds.QueueRound | internal/netio/tcp/agent_manager.go:215-248 | The same for the rest of a round, queue by queue |
| PoolRounds.CallAlone | internal/netio/tcp/agent_call.go:21-105 | A call alone takes the oldest worker of the object and leaves it open at the end of the queue; without a worker it changes nothing |
| PoolRounds.RegisterAlone | internal/netio/tcp/agent_manager.go:160-178 | A new connection joins the queue of its object, which is made if there are fewer than 5000 in the map; without room it is closed |
| PoolRounds.KeepsWorker | internal/netio/tcp/agent_call.go:21-105 | Whatever runs in between, a call keeps its worker and the worker stays open until its own connection fails; then it goes back to the queue if that has room |
| PoolRounds.ShutdownAlone | internal/netio/tcp/agent_manager.go:258-270 | A shutdown alone closes exactly the workers in the queues of the map and empties these queues and the map |
| PoolRuns.StepInv | internal/netio/tcp/agent_manager.go:160-270 | Every step of every goroutine keeps the invariant |
| PoolRuns.RunInv | internal/netio/tcp/agent_call.go:21-105 | Every run of calls, registrations, keepalive rounds and shutdowns keeps the invariant |
| PoolRuns.QueueSteps | internal/netio/tcp/agent_manager.go:43-113 | The steps change a queue as its methods do |
| PoolRuns.StrandsIff | internal/netio/tcp/agent_manager.go:160-248 | In every state and for every step: a queue with workers is out of reach afterwards exactly if it was before, or if the step takes the last reference to it: it leaves the map with no goroutine referring to it, or the last goroutine that refers to it lets go of it when it is no longer in the map |
| PoolRuns.LostIff | internal/netio/tcp/agent_manager.go:160-248 | A run leaves a queue with workers out of reach exactly if one of its steps takes the last reference |
| PoolRuns.SettledIff | internal/netio/tcp/agent_manager.go:160-270 | From a state in which all queued and returning workers go to queues of the map, a step keeps this exactly if the queues it removes are empty with no put pending |
| PoolRuns.SettledRunIff | internal/netio/tcp/agent_manager.go:160-270 | A run keeps all queued and returning workers in queues of the map throughout exactly if every removal in it takes an empty queue with no put pending |
| PoolRuns.SettledMeans | internal/netio/tcp/agent_manager.go:160-270 | In such a state no queue with workers is out of reach, and every worker that was not closed and dropped is in a queue of the map or in somebody's hands |
| PoolRuns.LockProtects | internal/netio/tcp/agent_manager.go:238-246 | If nobody is between lookup and put when the daemon checks the size under the lock, its removal is safe whatever the other goroutines do before it |
| PoolRuns.StrandingRun | internal/netio/tcp/agent_manager.go:160-248 | Two runs leave an open worker in a queue that nobody can find: the put comes after the removal, or to a queue of the map between the size check and the removal |
| PoolRuns.StrandedForever | internal/netio/tcp/agent_manager.go:215-248 | Such a worker is never used, checked or closed again |
| Pool.AgentQueue.PutBack | internal/netio/tcp/agent_manager.go:43-52 | Adds the worker to a queue with room and closes it otherwise |
| Pool.AgentQueue.GetNoWait | internal/netio/tcp/agent_manager.go:55-64 | Takes the oldest worker, if any |
| Pool.AgentQueue.DrainAll | internal/netio/tcp/agent_manager.go:106-113 | Takes all workers in order |
| Pool.Moved | internal/netio/tcp/agent_manager.go:43-113 | A move between two places keeps every worker in exactly one place |
| Crc.TableIsSerial | internal/util/hash.go:40-46 | The table-driven checksum equals the bit-serial reflected CRC-32 with polynomial 0xEDB88320 of section 8 of RFC 1952 on every byte string |
| Crc.TableEntries | internal/util/hash.go:4-37 | Each of the 256 table entries is eight bit steps |
| Crc.CheckValue | internal/util/hash.go:40-46 | The checksum of "123456789" is 0xCBF43926, as a signed 32-bit number |
| Crc.HashBytes | internal/util/hash.go:40-46 | The loop computes the table-driven checksum as a signed 32-bit number |

## Left out

- Sockets, deadlines, tickers, start-up of goroutines, logging and configuration: time is an input and a flush a step.
- Errors of the operating system, torn writes and renames: reads and writes succeed and are atomic.
- Locks of the index files, caches and tables: their operations run one at a time; only the connection pool is modelled under interleaving.
- IndexKeyFile.Update, Stat and ReadWithDataReader: Update acts on the head of the bucket without comparing the key; the others add only easy members.
- GetAll, Read, Stat and the sequential scans of the index with expiry times.
- IndexTimeFile.IndexTimeFile.Read: start and end lie in one local day, for which the program keeps one container; days with a clock change are not modelled.
- IndexTimeFile.IndexTimeFile.ReadFromEnd: as for Read, start and end lie in one local day.
- IndexTimeFile.IndexTimeFile.ReadWithDataReader: as for Read, start and end lie in one local day; what was emitted before a panic is not stated.
- ReadFromEndWithDataReader, ReadAll, GetDirect and the first and last positions of the time index, its table file and handlers that stop early.
- Panics: a panic is the error value Panicked, which every caller passes on; recovering from one is modelled for the UDP worker only.
- DataStream.DataInputX.SkipBytes: takes no negative count; the program passes constants.
- MemTimeBlock's and MemHashBlock's counts: they are kept as the code keeps them, and nothing is claimed about them.
- Keys and values that are nil: they are empty byte strings.
- Reopening the text and counter stores, their reader-side reloads, the daily text tables and the compressed caches.
- The stream mode of the writer and reader, WriteIntBytes, ReadIntBytes, ReadShortBytes and the decimal arrays.
- Floating-point arithmetic: floats are their bits, and AvgElapsed and ToFloat64 are not modelled.
- Allocation limits: a count that is too large for memory reads on until the data ends.
- XLogPack: the 43 fields are grouped into records by wire group, and Write and Read are split into one method per group; the pooled buffer is a fresh one.
- Packs.ReadPack: of the sixteen pack types it knows the map pack and the xlog pack; the codes of the others read as unknown.
- MultiPackets: a waiting packet is a value in the table that is replaced when it changes, so aliasing of its fragments is not modelled.
- Processor.NetDataProcessor.WorkerLoop: the critical sections of several workers and of the cleanup are one history in the order in which they got the lock of the table; packs that two workers dispatch at the same time may reach the dispatcher in either order, which is not modelled.
- HasAgent, Size and the contents of calls over a connection; waiting for a connection may end at any time.
- XLogCache and AlertCache with nil data or a size of zero.
- Meter.XLogGroupPerf: the derivation of the group from the service name and the diagnostic counters are not modelled.
