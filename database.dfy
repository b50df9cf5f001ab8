/** The tracking database of a batch run: a table of batches and a table
    of images, each keyed by an integer row id that SQLite assigns as one
    more than the largest id so far. The tables are held in memory; the
    SQLite file, its connection and the JSON encoding of the metadata
    columns are not modelled (a metadata column holds the dictionary the
    JSON text encodes). */
module Database {
  import opened Common

  datatype DatabaseConfig = DatabaseConfig(databasePath: Option<string>)

  /** A row of `batches`; `metadata` is NULL (`None`) for falsy metadata. */
  datatype BatchRow = BatchRow(batchId: string, source: string, status: string, metadata: Option<Value>)

  /** A row of `images`. The batch reference is whatever the caller
      passes: SQLite does not enforce the foreign key unless told to. */
  datatype ImageRow = ImageRow(batchRef: Value, originalPath: string, processedPath: Value,
                               width: Value, height: Value, format: Value,
                               status: string, metadata: Dict<Value>)

  /** The keys `register_image` stores in columns of their own. */
  const ColumnKeys: seq<string> := ["width", "height", "format", "processed_path"]

  /** The keys of `s` other than `k`, in order. */
  function DropKey(s: seq<string>, k: string): (r: seq<string>)
    ensures forall x :: x in r <==> x in s && x != k
    ensures |r| <= |s|
    ensures Distinct(s) ==> Distinct(r)
  {
    if s == [] then []
    else
      var init := DropKey(s[..|s| - 1], k);
      var x := s[|s| - 1];
      assert forall i :: 0 <= i < |s| - 1 ==> s[i] in s[..|s| - 1];
      assert Distinct(s) ==> x !in s[..|s| - 1];
      if x == k then init else init + [x]
  }

  /** `del d[k]` when `k` is present; nothing otherwise. */
  function RemoveKey(d: Dict<Value>, k: string): (r: Dict<Value>)
    ensures DictValid(d) ==> DictValid(r)
    ensures forall x :: x in r.values <==> x in d.values && x != k
    ensures forall x :: x in r.values ==> r.values[x] == d.values[x]
  {
    if k in d.values then Dict(DropKey(d.keys, k), d.values - {k}) else d
  }

  /** The dictionary left after deleting each of `ks` in turn. */
  function WithoutKeys(d: Dict<Value>, ks: seq<string>): Dict<Value>
  {
    if ks == [] then d else RemoveKey(WithoutKeys(d, ks[..|ks| - 1]), ks[|ks| - 1])
  }

  /** Deleting keys keeps a dictionary well formed and leaves exactly the
      other keys, with their values. */
  lemma {:induction false} WithoutKeysFacts(d: Dict<Value>, ks: seq<string>)
    ensures var r := WithoutKeys(d, ks);
      (DictValid(d) ==> DictValid(r)) &&
      (forall x :: x in r.values <==> x in d.values && x !in ks) &&
      (forall x :: x in r.values ==> r.values[x] == d.values[x])
  {
    if ks != [] {
      var init := ks[..|ks| - 1];
      assert ks == init + [ks[|ks| - 1]];
      WithoutKeysFacts(d, init);
    }
  }

  /** The metadata `register_image` stores: the image data without the
      keys that have columns of their own. */
  function StoredMetadata(imageData: Dict<Value>): Dict<Value>
  {
    WithoutKeys(imageData, ColumnKeys)
  }

  /** The loop of `register_image` deleting the column keys from a copy
      of the image data. */
  method StripColumns(imageData: Dict<Value>) returns (metadata: Dict<Value>)
    ensures metadata == StoredMetadata(imageData)
  {
    metadata := imageData;
    var i := 0;
    while i < |ColumnKeys|
      invariant 0 <= i <= |ColumnKeys|
      invariant metadata == WithoutKeys(imageData, ColumnKeys[..i])
    {
      assert ColumnKeys[..i + 1][..i] == ColumnKeys[..i];
      metadata := RemoveKey(metadata, ColumnKeys[i]);
      i := i + 1;
    }
    assert ColumnKeys[..|ColumnKeys|] == ColumnKeys;
  }

  /** The stored metadata is well formed and is exactly the image data
      minus `width`, `height`, `format` and `processed_path`. */
  lemma StoredMetadataFacts(imageData: Dict<Value>)
    requires DictValid(imageData)
    ensures var m := StoredMetadata(imageData);
      DictValid(m) &&
      (forall x :: x in m.values <==> x in imageData.values && x != "width" && x != "height" &&
                                      x != "format" && x != "processed_path") &&
      (forall x :: x in m.values ==> m.values[x] == imageData.values[x])
  {
    WithoutKeysFacts(imageData, ColumnKeys);
  }

  /** `dict.update`: each of the new keys in order, its value replacing
      an old one in place or appended at the end. */
  function Merged(existing: Dict<Value>, keys: seq<string>, values: map<string, Value>): Dict<Value>
  {
    if keys == [] then existing
    else
      var before := Merged(existing, keys[..|keys| - 1], values);
      var k := keys[|keys| - 1];
      if k in values then Put(before, k, values[k]) else before
  }

  /** Merging keeps the old keys first and in order, keeps a dictionary
      well formed, and gives every new key its new value and every other
      old key its old value. */
  lemma {:induction false} MergedFacts(existing: Dict<Value>, keys: seq<string>, values: map<string, Value>)
    requires DictValid(existing)
    ensures var r := Merged(existing, keys, values);
      DictValid(r) &&
      |r.keys| >= |existing.keys| && r.keys[..|existing.keys|] == existing.keys &&
      (forall x :: x in r.values <==> x in existing.values || (x in keys && x in values)) &&
      (forall x :: x in keys && x in values ==> r.values[x] == values[x]) &&
      (forall x :: x in existing.values && !(x in keys && x in values) ==> r.values[x] == existing.values[x])
  {
    if keys != [] {
      var init := keys[..|keys| - 1];
      var k := keys[|keys| - 1];
      assert keys == init + [k];
      assert forall x :: x in keys <==> x in init || x == k;
      MergedFacts(existing, init, values);
      var before := Merged(existing, init, values);
      assert Merged(existing, keys, values) == if k in values then Put(before, k, values[k]) else before;
      if k in values && k !in before.values {
        assert (before.keys + [k])[..|existing.keys|] == before.keys[..|existing.keys|];
      }
    }
  }

  /** `if metadata:` for the optional dictionary `update_image` takes. */
  predicate HasMetadata(metadata: Option<Dict<Value>>)
  {
    metadata.Some? && metadata.value.keys != []
  }

  /** The row `update_image` leaves: the new status, the new processed
      path when it is truthy, and the metadata merged when given. */
  function UpdatedRow(row: ImageRow, status: string, processedPath: Value, metadata: Option<Dict<Value>>): (r: ImageRow)
    ensures r.status == status
    ensures r.processedPath == if Truthy(processedPath) then processedPath else row.processedPath
    ensures !HasMetadata(metadata) ==> r.metadata == row.metadata
    ensures r.batchRef == row.batchRef && r.originalPath == row.originalPath
    ensures r.width == row.width && r.height == row.height && r.format == row.format
  {
    var merged := if HasMetadata(metadata) then Merged(row.metadata, metadata.value.keys, metadata.value.values)
                  else row.metadata;
    ImageRow(row.batchRef, row.originalPath, if Truthy(processedPath) then processedPath else row.processedPath,
             row.width, row.height, row.format, status, merged)
  }

  /** Updating a well-formed row gives well-formed metadata in which the
      new keys win and the old ones stay. */
  lemma UpdatedMetadataFacts(row: ImageRow, status: string, processedPath: Value, metadata: Option<Dict<Value>>)
    requires DictValid(row.metadata)
    requires metadata.Some? ==> DictValid(metadata.value)
    ensures var m := UpdatedRow(row, status, processedPath, metadata).metadata;
      DictValid(m) &&
      (forall x :: x in m.values <==> x in row.metadata.values || (HasMetadata(metadata) && x in metadata.value.values)) &&
      (forall x :: x in m.values ==>
        m.values[x] == if HasMetadata(metadata) && x in metadata.value.values then metadata.value.values[x]
                       else row.metadata.values[x])
  {
    if HasMetadata(metadata) {
      MergedFacts(row.metadata, metadata.value.keys, metadata.value.values);
    }
  }

  /** The row ids of a table are 1, 2, …, next - 1. */
  ghost predicate Numbered<R>(rows: map<int, R>, next: int)
  {
    next >= 1 && forall i :: i in rows <==> 1 <= i < next
  }

  /** Inserting at the next id keeps the ids gapless. */
  lemma NumberedInsert<R>(rows: map<int, R>, next: int, row: R)
    requires Numbered(rows, next)
    ensures next !in rows && Numbered(rows[next := row], next + 1)
  {
    var after := rows[next := row];
    forall i | 1 <= i < next + 1 ensures i in after {
      if i < next {
        assert i in rows;
      }
    }
  }

  ghost predicate UniqueBatchIds(batches: map<int, BatchRow>)
  {
    forall i, j :: i in batches && j in batches && batches[i].batchId == batches[j].batchId ==> i == j
  }

  ghost predicate MetadataValid(images: map<int, ImageRow>)
  {
    forall i :: i in images ==> DictValid(images[i].metadata)
  }

  class DatabaseManager {
    var dbPath: string
    var batches: map<int, BatchRow>
    var images: map<int, ImageRow>
    var nextBatchId: int
    var nextImageId: int

    /** Row ids run from 1 without gaps, so the next id SQLite picks is one
        more than the largest; batch ids are unique; stored metadata is a
        well-formed dictionary. */
    ghost predicate Valid()
      reads this
    {
      Numbered(batches, nextBatchId) && Numbered(images, nextImageId) &&
      UniqueBatchIds(batches) && MetadataValid(images)
    }

    /** `DatabaseManager(config)`: the database file (default
        "database/images.db") with both tables created empty. */
    constructor (config: DatabaseConfig)
      ensures Valid()
      ensures dbPath == if config.databasePath.Some? then config.databasePath.value else "database/images.db"
      ensures batches == map[] && images == map[]
    {
      dbPath := if config.databasePath.Some? then config.databasePath.value else "database/images.db";
      batches := map[];
      images := map[];
      nextBatchId := 1;
      nextImageId := 1;
    }

    /** Whether a batch with this id is already stored. */
    predicate HasBatch(batchId: string)
      reads this
    {
      exists i | i in batches :: batches[i].batchId == batchId
    }

    /** `add_batch(batch_id, source, metadata)`: a new batch with status
        "created", whose row id (not the batch id) is returned; a batch id
        already stored violates the UNIQUE constraint and nothing changes. */
    method AddBatch(batchId: string, source: string, metadata: Value) returns (r: Result<int>)
      requires Valid()
      modifies this
      ensures Valid()
      ensures r.Err? <==> old(HasBatch(batchId))
      ensures r.Err? ==> r.error == "UNIQUE constraint failed: batches.batch_id"
      ensures r.Err? ==> batches == old(batches) && nextBatchId == old(nextBatchId)
      ensures r.Ok? ==> r.value == old(nextBatchId) && r.value !in old(batches)
      ensures r.Ok? ==> batches == old(batches)[r.value := BatchRow(batchId, source, "created",
                                                                    if Truthy(metadata) then Some(metadata) else None)]
      ensures r.Ok? ==> nextBatchId == old(nextBatchId) + 1
      ensures images == old(images) && nextImageId == old(nextImageId) && dbPath == old(dbPath)
    {
      if HasBatch(batchId) {
        return Err("UNIQUE constraint failed: batches.batch_id");
      }
      var stored := if Truthy(metadata) then Some(metadata) else None;
      var id := nextBatchId;
      var row := BatchRow(batchId, source, "created", stored);
      NumberedInsert(batches, id, row);
      assert UniqueBatchIds(batches[id := row]);
      batches := batches[id := row];
      nextBatchId := nextBatchId + 1;
      r := Ok(id);
    }

    /** `register_image(batch_id, original_path, image_data)`: a new image
        row with status "registered", width and height from the data
        (default 0), format and processed path from the data (default ""),
        and the rest of the data as metadata; its row id is returned. */
    method RegisterImage(batchRef: Value, originalPath: string, imageData: Dict<Value>) returns (id: int)
      requires Valid()
      requires DictValid(imageData)
      modifies this
      ensures Valid()
      ensures id == old(nextImageId) && id !in old(images) && nextImageId == old(nextImageId) + 1
      ensures images == old(images)[id := ImageRow(batchRef, originalPath,
                                                   Get(imageData.values, "processed_path", VStr("")),
                                                   Get(imageData.values, "width", VInt(0)),
                                                   Get(imageData.values, "height", VInt(0)),
                                                   Get(imageData.values, "format", VStr("")),
                                                   "registered", StoredMetadata(imageData))]
      ensures batches == old(batches) && nextBatchId == old(nextBatchId) && dbPath == old(dbPath)
    {
      var width := Get(imageData.values, "width", VInt(0));
      var height := Get(imageData.values, "height", VInt(0));
      var format := Get(imageData.values, "format", VStr(""));
      var processedPath := Get(imageData.values, "processed_path", VStr(""));
      var metadata := StripColumns(imageData);
      StoredMetadataFacts(imageData);
      id := nextImageId;
      var row := ImageRow(batchRef, originalPath, processedPath, width, height, format, "registered", metadata);
      NumberedInsert(images, id, row);
      assert MetadataValid(images[id := row]);
      images := images[id := row];
      nextImageId := nextImageId + 1;
    }

    /** `update_image(image_id, status, processed_path, metadata)`: false
        and nothing changed for an unknown id; otherwise that one row gets
        the new status, the processed path when it is truthy and the merged
        metadata, and every other row is untouched. */
    method UpdateImage(imageId: int, status: string, processedPath: Value, metadata: Option<Dict<Value>>)
      returns (ok: bool)
      requires Valid()
      requires metadata.Some? ==> DictValid(metadata.value)
      modifies this
      ensures Valid()
      ensures ok <==> imageId in old(images)
      ensures !ok ==> images == old(images)
      ensures ok ==> images == old(images)[imageId := UpdatedRow(old(images)[imageId], status, processedPath, metadata)]
      ensures batches == old(batches) && nextBatchId == old(nextBatchId) && nextImageId == old(nextImageId)
      ensures dbPath == old(dbPath)
    {
      if imageId !in images {
        return false;
      }
      var row := images[imageId];
      UpdatedMetadataFacts(row, status, processedPath, metadata);
      images := images[imageId := UpdatedRow(row, status, processedPath, metadata)];
      ok := true;
    }
  }
}
