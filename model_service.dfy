/** Vehicle-model CRUD (BackEnd/src/model/model.service.ts). */
module ModelService {
  import opened Common
  import opened Ordering
  import opened Database

  datatype CreateModelDto = CreateModelDto(modelId: string, name: string, description: Option<string>)

  /** The optional fields of an update request; an absent field is left as it is. */
  datatype UpdateModelDto = UpdateModelDto(modelId: Option<string>, name: Option<string>, description: Option<string>)

  function ModelIdOf(m: Model): string {
    m.modelId
  }

  predicate HasModelId(ms: seq<Model>, modelId: string) {
    exists m :: m in ms && m.modelId == modelId
  }

  /** `Object.assign(model, dto)`: the supplied fields overwrite the stored ones. */
  function ApplyUpdate(m: Model, dto: UpdateModelDto): (r: Model)
    ensures r.modelId == dto.modelId.GetOr(m.modelId) && r.name == dto.name.GetOr(m.name)
    ensures r.description == if dto.description.Some? then dto.description else m.description
  {
    Model(dto.modelId.GetOr(m.modelId), dto.name.GetOr(m.name),
          if dto.description.Some? then dto.description else m.description)
  }

  /** The repository's `save`: overwrites the row with the entity's primary key, or inserts the
      entity when no row has that key. */
  function SaveModel(ms: seq<Model>, m: Model): (r: seq<Model>)
    ensures m in r
    ensures forall x :: x in r ==> x == m || x in ms
    ensures forall x :: x in ms && x.modelId != m.modelId ==> x in r
    ensures |r| == if HasModelId(ms, m.modelId) then |ms| else |ms| + 1
    ensures ModelsOk(ms) ==> ModelsOk(r)
  {
    match Find(ms, (x: Model) => x.modelId == m.modelId)
    case Some(i) =>
      var r := ms[i := m];
      assert r[i] == m;
      assert forall x :: x in r ==> x == m || x in ms by {
        forall x | x in r ensures x == m || x in ms {
          var k :| 0 <= k < |r| && r[k] == x;
          if k != i { assert x == ms[k]; }
        }
      }
      assert forall x :: x in ms && x.modelId != m.modelId ==> x in r by {
        forall x | x in ms && x.modelId != m.modelId ensures x in r {
          var k :| 0 <= k < |ms| && ms[k] == x;
          assert r[k] == x;
        }
      }
      r
    case None =>
      ms + [m]
  }

  /** After a save, the row found under the saved key is the saved entity. */
  lemma SaveThenFind(ms: seq<Model>, m: Model)
    requires ModelsOk(ms)
    ensures forall x :: x in SaveModel(ms, m) && x.modelId == m.modelId ==> x == m
  {
    var r := SaveModel(ms, m);
    forall x | x in r && x.modelId == m.modelId ensures x == m {
      var i :| 0 <= i < |r| && r[i] == x;
      var j :| 0 <= j < |r| && r[j] == m;
    }
  }

  /** `getAll`: every model, ordered by `modelId`. */
  function GetAll(db: Db): (r: seq<Model>)
    reads db
    ensures multiset(r) == multiset(db.models)
    ensures forall i, j :: 0 <= i < j < |r| ==> StrLe(r[i].modelId, r[j].modelId)
  {
    var r := SortBy(StrKeyAsc(ModelIdOf), db.models);
    SortedByStrAsc(ModelIdOf, db.models);
    r
  }

  /** `getById`: the model with that `modelId`, or not-found. */
  function GetById(db: Db, modelId: string): (r: Result<Model>)
    reads db
    ensures r.Err? <==> !HasModelId(db.models, modelId)
    ensures r.Err? ==> r.error == NotFound
    ensures r.Ok? ==> r.value in db.models && r.value.modelId == modelId
  {
    match Find(db.models, (m: Model) => m.modelId == modelId)
    case None => Err(NotFound)
    case Some(i) => Ok(db.models[i])
  }

  /** `create`: refuses an existing `modelId`, otherwise inserts exactly the new model. */
  method Create(db: Db, dto: CreateModelDto) returns (r: Result<Model>)
    requires db.Valid()
    modifies db`models
    ensures db.Valid()
    ensures r.Err? <==> old(HasModelId(db.models, dto.modelId))
    ensures r.Err? ==> r.error == BadRequest && db.models == old(db.models)
    ensures r.Ok? ==> r.value == Model(dto.modelId, dto.name, dto.description)
                      && db.models == old(db.models) + [r.value]
  {
    var existing := Find(db.models, (m: Model) => m.modelId == dto.modelId);
    if existing.Some? {
      return Err(BadRequest);
    }
    var model := Model(dto.modelId, dto.name, dto.description);
    db.models := db.models + [model];
    r := Ok(model);
  }

  /** `update`: not-found for an unknown `modelId`; refuses a rename to a `modelId` in use
      (an empty new `modelId` skips that check); otherwise applies the supplied fields and
      saves. Saving keys on the primary key, so a rename inserts a row under the new
      `modelId` and leaves the old row in place. */
  method Update(db: Db, modelId: string, dto: UpdateModelDto) returns (r: Result<Model>)
    requires db.Valid()
    modifies db`models
    ensures db.Valid()
    ensures old(GetById(db, modelId)).Err? ==> r == Err(NotFound) && db.models == old(db.models)
    ensures old(GetById(db, modelId)).Ok? ==>
      var m := old(GetById(db, modelId)).value;
      var renamed := dto.modelId.Some? && dto.modelId.value != "" && dto.modelId.value != m.modelId;
      if renamed && old(HasModelId(db.models, dto.modelId.value)) then
        r == Err(BadRequest) && db.models == old(db.models)
      else
        r == Ok(ApplyUpdate(m, dto)) && db.models == SaveModel(old(db.models), ApplyUpdate(m, dto))
    ensures r.Ok? && r.value.modelId == modelId ==>
      |db.models| == |old(db.models)|
      && forall k :: 0 <= k < |db.models| ==>
           db.models[k] == if old(db.models)[k].modelId == modelId then r.value else old(db.models)[k]
  {
    var found := Find(db.models, (m: Model) => m.modelId == modelId);
    if found.None? {
      return Err(NotFound);
    }
    var model := db.models[found.value];
    if dto.modelId.Some? && dto.modelId.value != "" && dto.modelId.value != model.modelId {
      var existing := Find(db.models, (m: Model) => m.modelId == dto.modelId.value);
      if existing.Some? {
        return Err(BadRequest);
      }
    }
    model := ApplyUpdate(model, dto);
    db.models := SaveModel(db.models, model);
    r := Ok(model);
  }

  /** `delete`: not-found for an unknown `modelId`, otherwise removes exactly that model. */
  method Delete(db: Db, modelId: string) returns (r: Outcome)
    requires db.Valid()
    modifies db`models
    ensures db.Valid()
    ensures r.Fail? <==> old(!HasModelId(db.models, modelId))
    ensures r.Fail? ==> r.error == NotFound && db.models == old(db.models)
    ensures r.Pass? ==> |db.models| == |old(db.models)| - 1
    ensures r.Pass? ==> forall m :: m in db.models <==> m in old(db.models) && m.modelId != modelId
  {
    var found := Find(db.models, (m: Model) => m.modelId == modelId);
    if found.None? {
      return Fail(NotFound);
    }
    ghost var before := db.models;
    db.models := RemoveAt(db.models, found.value);
    forall m ensures m in db.models <==> m in before && m.modelId != modelId {
      if m in before && m.modelId != modelId {
        var k :| 0 <= k < |before| && before[k] == m;
        assert k != found.value;
        if k < found.value { assert db.models[k] == m; } else { assert db.models[k - 1] == m; }
      }
    }
    r := Pass;
  }
}
