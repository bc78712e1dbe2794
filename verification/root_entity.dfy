/** `RDWEntity` of the 2.9 release (__init__.py at the top of the repository): the same
    fetch and recall scan as the newer entity, but brand and type are kept as RDW sends
    them and the name is built on demand by `create_name`. */
module RootEntity {
  import opened Wrappers
  import opened Errors
  import opened Ascii
  import opened Plates
  import opened Records
  import Entity

  /** The fields of the 2.9 `RDWEntity` that the flow and the sensors read. */
  datatype Vehicle = Vehicle(
    plate: string,
    brand: Option<string>,
    model: Option<string>,
    expdate: Option<string>,
    insured: Option<string>,
    recall: Option<nat>,
    attrs: map<string, string>)

  /** `RDWEntity.__init__`: the plate is checked before any field is set. */
  function Construct(plate: string): (r: Result<Vehicle, Exc>)
    ensures r.Failure? <==> !ValidatePlate(plate)
    ensures r.Failure? ==> r.error == InvalidPlate
    ensures r.Success? ==>
      && r.value.plate == plate && r.value.brand.None? && r.value.model.None?
      && r.value.expdate.None? && r.value.insured.None? && r.value.recall.None? && r.value.attrs == map[]
  {
    if !ValidatePlate(plate) then Failure(InvalidPlate)
    else Success(Vehicle(plate, None, None, None, None, None, map[]))
  }

  /** The result of `async_update`. */
  datatype Updated = Updated(vehicle: Vehicle, outcome: Outcome)

  /** `RDWEntity.async_update` of the 2.9 release: as in the newer entity, but the four
      fields of the first APK row are stored unchanged. */
  function Update(v: Vehicle, apk: Fetch, recalls: Fetch): (r: Updated)
    ensures r.vehicle.plate == v.plate
    ensures apk.FetchFailed? || recalls.FetchFailed? ==>
      r == Updated(v.(attrs := map[]), Returned(false))
    ensures apk.Fetched? && recalls.Fetched? && (apk.data.None? || apk.data.value == []) ==>
      r == Updated(v.(attrs := map[]), Raised(NotRegistered))
    ensures r.outcome != Returned(false) && r.outcome != Raised(NotRegistered) ==>
      var rec := apk.data.value[0];
      && (r.vehicle.brand.Some? <==> Entity.MERK in rec)
      && (r.vehicle.brand.Some? ==> r.vehicle.brand.value == rec[Entity.MERK])
      && (r.vehicle.model.Some? <==> Entity.HANDELSBENAMING in rec)
      && (r.vehicle.model.Some? ==> r.vehicle.model.value == rec[Entity.HANDELSBENAMING])
      && r.vehicle.expdate == Entity.Field(rec, Entity.VERVALDATUM_APK)
      && r.vehicle.insured == Entity.Field(rec, Entity.WAM_VERZEKERD)
    ensures r.outcome == Returned(true) ==>
      && r.vehicle.recall == Some(|r.vehicle.attrs|)
      && (recalls.data.None? ==> r.vehicle.attrs == map[])
      && (recalls.data.Some? ==> r.vehicle.attrs.Keys == OpenKeys(recalls.data.value)
                                 && |r.vehicle.attrs| <= |OpenRows(recalls.data.value)|)
    ensures apk.Fetched? && apk.data.Some? && apk.data.value != [] && recalls.Fetched? && recalls.data.Some?
            && !(forall i :: 0 <= i < |recalls.data.value| ==> WellFormed(recalls.data.value[i]))
            ==> r.outcome.Raised? && r.outcome.error.KeyError?
    ensures apk.Fetched? && recalls.Fetched? && apk.data.Some? && apk.data.value != [] ==>
      (r.outcome == Returned(true) <==>
         recalls.data.None? || forall i :: 0 <= i < |recalls.data.value| ==> WellFormed(recalls.data.value[i]))
    ensures r.outcome == Returned(true) && recalls.data.Some? ==> r.vehicle.attrs == ScanRecalls(recalls.data.value).attrs
  {
    var cleared := v.(attrs := map[]);
    if apk.FetchFailed? || recalls.FetchFailed? then Updated(cleared, Returned(false))
    else if apk.data.None? || apk.data.value == [] then Updated(cleared, Raised(NotRegistered))
    else
      var rec := apk.data.value[0];
      var filled := cleared.(brand := Entity.Field(rec, Entity.MERK),
                             model := Entity.Field(rec, Entity.HANDELSBENAMING),
                             expdate := Entity.Field(rec, Entity.VERVALDATUM_APK),
                             insured := Entity.Field(rec, Entity.WAM_VERZEKERD));
      if recalls.data.None? then Updated(filled.(recall := Some(0)), Returned(true))
      else
        var rows := recalls.data.value;
        var scan := ScanRecalls(rows);
        if scan.missing.Some? then Updated(filled.(attrs := scan.attrs), Raised(KeyError(scan.missing.value)))
        else
          ScanKeys(rows);
          ScanCount(rows);
          Updated(filled.(attrs := scan.attrs, recall := Some(|scan.attrs|)), Returned(true))
  }

  /** Both releases end an update the same way and collect the same recall attributes,
      whatever the entities held before. */
  lemma {:induction false} UpdatesAgree(old29: Vehicle, current: Entity.Vehicle, apk: Fetch, recalls: Fetch)
    ensures Update(old29, apk, recalls).outcome == Entity.Update(current, apk, recalls).outcome
    ensures Update(old29, apk, recalls).vehicle.attrs == Entity.Update(current, apk, recalls).vehicle.attrs
    ensures Update(old29, apk, recalls).outcome == Returned(true) ==>
      Update(old29, apk, recalls).vehicle.recall == Entity.Update(current, apk, recalls).vehicle.recall
    ensures Update(old29, apk, recalls).outcome == Returned(true) ==>
      Update(old29, apk, recalls).vehicle.expdate == Entity.Update(current, apk, recalls).vehicle.expdate
      && Update(old29, apk, recalls).vehicle.insured == Entity.Update(current, apk, recalls).vehicle.insured
  {
  }

  /** After a successful 2.9 update the recall attributes are keyed by the lower-cased
      references of the open rows, and each holds the link of the last open row with its key. */
  lemma UpdateRecallLinks(v: Vehicle, apk: Fetch, recalls: Fetch)
    requires apk.Fetched? && apk.data.Some? && apk.data.value != []
    requires recalls.Fetched? && recalls.data.Some?
    requires forall i :: 0 <= i < |recalls.data.value| ==> WellFormed(recalls.data.value[i])
    ensures Update(v, apk, recalls).outcome == Returned(true)
    ensures var attrs := Update(v, apk, recalls).vehicle.attrs;
            var rows := recalls.data.value;
      && attrs.Keys == OpenKeys(rows)
      && forall k :: k in attrs ==> exists i :: LastWithKey(rows, i, k) && attrs[k] == RecallUrl(rows[i][REFERENCE])
  {
    ScanLastWins(recalls.data.value);
  }

  /** `create_name`: the type alone when it already starts with the brand, otherwise brand
      and type separated by a space, in title case. */
  function CreateName(brand: string, model: string): (name: string)
    ensures IsTitled(name)
    ensures StartsWith(model, brand) ==> Lower(name) == Lower(model)
    ensures !StartsWith(model, brand) ==> Lower(name) == Lower(brand + " " + model)
    ensures !StartsWith(model, brand) ==> |name| == |brand| + 1 + |model| && name[|brand|] == ' '
  {
    if StartsWith(model, brand) then
      TitleIdempotent(model);
      LowerTitle(model);
      Title(model)
    else
      TitleIdempotent(brand + " " + model);
      LowerTitle(brand + " " + model);
      assert (brand + " " + model)[|brand|] == ' ';
      Title(brand + " " + model)
  }

  /** `create_name` is a fixed point of `str.title`: naming a named car changes nothing. */
  lemma CreateNameStable(brand: string, model: string)
    ensures Title(CreateName(brand, model)) == CreateName(brand, model)
  {
    TitleFixedPointIffTitled(CreateName(brand, model));
  }

  /** When the type does not repeat the brand, the name is the brand's title case, a space,
      and the type in title case continued after a non-letter. */
  lemma CreateNameSplits(brand: string, model: string)
    requires !StartsWith(model, brand)
    ensures CreateName(brand, model)[..|brand|] == Title(brand)
    ensures CreateName(brand, model)[|brand| + 1..] == Title(model)
  {
    TitleAroundSpace(brand, model);
  }

  /** `create_name` on the entity's optional fields: calling `startswith` on a missing type
      raises `AttributeError`, passing a missing brand to it raises `TypeError`. */
  function CreateNameOf(brand: Option<string>, model: Option<string>): (r: Result<string, Exc>)
    ensures r.Success? <==> brand.Some? && model.Some?
    ensures model.None? ==> r == Failure(AttributeError)
    ensures model.Some? && brand.None? ==> r == Failure(TypeError)
    ensures r.Success? ==> r.value == CreateName(brand.value, model.value)
  {
    match model
    case None => Failure(AttributeError)
    case Some(t) =>
      match brand
      case None => Failure(TypeError)
      case Some(b) => Success(CreateName(b, t))
  }
}
