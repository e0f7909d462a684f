/** The tour document of `models/tourModel.js`: the schema's casts, defaults
    and validators, the `pre('save')` hook that recomputes the slug, and the
    `pre(/^find/)` hook that hides secret tours from every query. Numbers are
    whole numbers; `ratingsAverage` and `rating` are kept in tenths of a star. */
module TourModel {
  import opened Base
  import opened Text

  const Difficulties: seq<string> := ["easy", "medium", "difficult"]
  const MinNameLength: nat := 10
  const MaxNameLength: nat := 40
  /** `ratingsAverage` bounds and default, in tenths: 1.0, 5.0 and 4.5. */
  const MinRatingTenths: int := 10
  const MaxRatingTenths: int := 50
  const DefaultRatingTenths: int := 45
  const DefaultRatingsQuantity: int := 0

  /** What a client sends to create a tour: any path may be absent. */
  datatype TourInput = TourInput(
    name: Option<string>,
    duration: Option<int>,
    maxGroupSize: Option<int>,
    difficulty: Option<string>,
    ratingsAverage: Option<int>,
    ratingsQuantity: Option<int>,
    rating: Option<int>,
    price: Option<int>,
    priceDiscount: Option<int>,
    summary: Option<string>,
    description: Option<string>,
    imageCover: Option<string>,
    secretTour: Option<bool>)

  /** A tour record. A required string path that is absent is "", which the
      `required` validator rejects just like a missing value. `secretTour` may be
      absent on records written without the schema. */
  datatype Tour = Tour(
    id: nat,
    name: string,
    slug: Option<string>,
    duration: Option<int>,
    maxGroupSize: Option<int>,
    difficulty: string,
    ratingsAverage: int,
    ratingsQuantity: int,
    rating: int,
    price: Option<int>,
    priceDiscount: Option<int>,
    summary: string,
    description: Option<string>,
    imageCover: string,
    secretTour: Option<bool>)

  function OrEmpty(s: Option<string>): string
  {
    if s.Some? then s.value else ""
  }

  function OrDefault(v: Option<int>, d: int): int
  {
    if v.Some? then v.value else d
  }

  /** `new Tour(input)`: the `trim` setters of `name`, `summary` and
      `description`, and the defaults of the rating paths and `secretTour`. */
  function NewTour(id: nat, input: TourInput): (t: Tour)
    ensures t.name == Trim(OrEmpty(input.name)) && t.summary == Trim(OrEmpty(input.summary))
    ensures t.description == (if input.description.Some? then Some(Trim(input.description.value)) else None)
    ensures input.ratingsAverage.None? ==> t.ratingsAverage == DefaultRatingTenths
    ensures input.ratingsQuantity.None? ==> t.ratingsQuantity == DefaultRatingsQuantity
    ensures input.rating.None? ==> t.rating == DefaultRatingTenths
    ensures input.secretTour.None? ==> t.secretTour == Some(false)
    ensures input.ratingsAverage.Some? ==> t.ratingsAverage == input.ratingsAverage.value
    ensures input.ratingsQuantity.Some? ==> t.ratingsQuantity == input.ratingsQuantity.value
    ensures input.rating.Some? ==> t.rating == input.rating.value
    ensures input.secretTour.Some? ==> t.secretTour == input.secretTour
    ensures t.duration == input.duration && t.maxGroupSize == input.maxGroupSize
    ensures t.difficulty == OrEmpty(input.difficulty) && t.imageCover == OrEmpty(input.imageCover)
    ensures t.price == input.price && t.priceDiscount == input.priceDiscount
    ensures t.slug.None? && t.id == id
  {
    Tour(id, Trim(OrEmpty(input.name)), None, input.duration, input.maxGroupSize, OrEmpty(input.difficulty),
         OrDefault(input.ratingsAverage, DefaultRatingTenths), OrDefault(input.ratingsQuantity, DefaultRatingsQuantity),
         OrDefault(input.rating, DefaultRatingTenths), input.price, input.priceDiscount,
         Trim(OrEmpty(input.summary)),
         if input.description.Some? then Some(Trim(input.description.value)) else None,
         OrEmpty(input.imageCover), Some(if input.secretTour.Some? then input.secretTour.value else false))
  }

  // The validators, one per path.

  /** Required, and between 10 and 40 UTF-16 code units once trimmed. */
  predicate NameOk(t: Tour)
  {
    t.name != "" && MinNameLength <= JsLength(t.name) <= MaxNameLength
  }

  predicate DifficultyOk(t: Tour) { t.difficulty != "" && t.difficulty in Difficulties }

  predicate RatingOk(t: Tour) { MinRatingTenths <= t.ratingsAverage <= MaxRatingTenths }

  /** The custom validator runs only when a discount is given. */
  predicate DiscountOk(t: Tour)
  {
    t.priceDiscount.Some? ==> t.price.Some? && t.priceDiscount.value < t.price.value
  }

  /** Every rule of the schema, stated path by path. */
  predicate Conforms(t: Tour)
  {
    && t.name != "" && 10 <= JsLength(t.name) <= 40
    && t.duration.Some?
    && t.maxGroupSize.Some?
    && t.difficulty in ["easy", "medium", "difficult"]
    && 10 <= t.ratingsAverage <= 50
    && t.price.Some?
    && (t.priceDiscount.Some? ==> t.price.Some? && t.priceDiscount.value < t.price.value)
    && t.summary != ""
    && t.imageCover != ""
  }

  /** The paths a `ValidationError` names, in schema order. */
  function TourValidationErrors(t: Tour): (paths: seq<string>)
    ensures paths == [] <==> Conforms(t)
  {
    (if NameOk(t) then [] else ["name"])
    + (if t.duration.Some? then [] else ["duration"])
    + (if t.maxGroupSize.Some? then [] else ["maxGroupSize"])
    + (if DifficultyOk(t) then [] else ["difficulty"])
    + (if RatingOk(t) then [] else ["ratingsAverage"])
    + (if t.price.Some? then [] else ["price"])
    + (if DiscountOk(t) then [] else ["priceDiscount"])
    + (if t.summary != "" then [] else ["summary"])
    + (if t.imageCover != "" then [] else ["imageCover"])
  }

  /** Each rule failing is reported under its own path, and only then. */
  lemma TourErrorPaths(t: Tour)
    ensures "name" in TourValidationErrors(t) <==> !(t.name != "" && 10 <= JsLength(t.name) <= 40)
    ensures "difficulty" in TourValidationErrors(t) <==> t.difficulty !in Difficulties
    ensures "ratingsAverage" in TourValidationErrors(t) <==> !(10 <= t.ratingsAverage <= 50)
    ensures "price" in TourValidationErrors(t) <==> t.price.None?
    ensures "priceDiscount" in TourValidationErrors(t) <==>
              t.priceDiscount.Some? && !(t.price.Some? && t.priceDiscount.value < t.price.value)
  {
    NameReported(t);
    DifficultyReported(t);
    RatingReported(t);
    PriceReported(t);
    DiscountReported(t);
  }

  lemma NameReported(t: Tour)
    ensures "name" in TourValidationErrors(t) <==> !NameOk(t)
  {
  }

  lemma DifficultyReported(t: Tour)
    ensures "difficulty" in TourValidationErrors(t) <==> !DifficultyOk(t)
  {
  }

  lemma RatingReported(t: Tour)
    ensures "ratingsAverage" in TourValidationErrors(t) <==> !RatingOk(t)
  {
  }

  lemma PriceReported(t: Tour)
    ensures "price" in TourValidationErrors(t) <==> t.price.None?
  {
  }

  lemma DiscountReported(t: Tour)
    ensures "priceDiscount" in TourValidationErrors(t) <==> !DiscountOk(t)
  {
  }

  /** What a client must send for `Tour.create(input)` to pass validation:
      a name of 10 to 40 code units once trimmed, a duration, a group size, a
      known difficulty, a price above any discount, a summary that is not all
      white space and a cover image; an absent rating takes the default 4.5,
      which is in range. */
  lemma {:induction false} NewTourConforms(id: nat, input: TourInput)
    ensures Conforms(NewTour(id, input)) <==>
              && var name := Trim(OrEmpty(input.name));
              && name != "" && MinNameLength <= JsLength(name) <= MaxNameLength
              && input.duration.Some? && input.maxGroupSize.Some?
              && input.difficulty.Some? && input.difficulty.value in Difficulties
              && (input.ratingsAverage.Some? ==> MinRatingTenths <= input.ratingsAverage.value <= MaxRatingTenths)
              && input.price.Some?
              && (input.priceDiscount.Some? ==> input.priceDiscount.value < input.price.value)
              && Trim(OrEmpty(input.summary)) != ""
              && input.imageCover.Some? && input.imageCover.value != ""
  {
    var t := NewTour(id, input);
    GivenDifficulty(input.difficulty);
    GivenRating(input.ratingsAverage);
    assert (t.imageCover != "") <==> input.imageCover.Some? && input.imageCover.value != "";
  }

  lemma GivenDifficulty(d: Option<string>)
    ensures OrEmpty(d) in ["easy", "medium", "difficult"] <==> d.Some? && d.value in Difficulties
  {
    assert |Difficulties[0]| == 4 && |Difficulties[1]| == 6 && |Difficulties[2]| == 9;
  }

  lemma GivenRating(v: Option<int>)
    ensures 10 <= OrDefault(v, DefaultRatingTenths) <= 50 <==> (v.Some? ==> MinRatingTenths <= v.value <= MaxRatingTenths)
  {
  }

  /** A tour other than `id` has `name`. The unique index on `name` refuses
      an insert or an update that would store it twice. */
  predicate NameTaken(tours: seq<Tour>, name: string, id: nat)
  {
    exists j :: 0 <= j < |tours| && j != id && tours[j].name == name
  }

  /** What the unique index on `name` keeps true of the collection. */
  predicate DistinctNames(tours: seq<Tour>)
  {
    forall i, j :: 0 <= i < j < |tours| ==> tours[i].name != tours[j].name
  }

  datatype TourSaveOutcome = TourSaveOutcome(failure: Option<Failure>, doc: Tour, tours: seq<Tour>)

  /** `doc.save()` of a tour: validation, then the slug hook, then an insert
      or an update, either refused by the unique index on `name` when another
      tour has the name. */
  function SaveTour(tours: seq<Tour>, doc: Tour, isNew: bool, slugify: string -> string): (o: TourSaveOutcome)
    requires isNew ==> doc.id == |tours|
    requires !isNew ==> doc.id < |tours|
    ensures !Conforms(doc) ==> o == TourSaveOutcome(Some(ValidationFailed(TourValidationErrors(doc))), doc, tours)
    ensures o.failure.None? ==> Conforms(doc) && o.doc == doc.(slug := Some(slugify(doc.name)))
    ensures o.failure.None? && isNew ==> o.tours == tours + [o.doc]
    ensures o.failure.None? && !isNew ==> o.tours == tours[doc.id := o.doc]
    ensures o.failure.Some? ==> o.tours == tours
    ensures o.failure == Some(DuplicateKey("name")) <==> Conforms(doc) && NameTaken(tours, doc.name, doc.id)
    ensures Conforms(doc) && !NameTaken(tours, doc.name, doc.id) ==> o.failure.None?
  {
    var errors := TourValidationErrors(doc);
    if errors != [] then TourSaveOutcome(Some(ValidationFailed(errors)), doc, tours)
    else
      var saved := doc.(slug := Some(slugify(doc.name)));
      if NameTaken(tours, doc.name, doc.id) then TourSaveOutcome(Some(DuplicateKey("name")), saved, tours)
      else if isNew then TourSaveOutcome(None, saved, tours + [saved])
      else TourSaveOutcome(None, saved, tours[doc.id := saved])
  }

  /** The unique index at work: a save leaves the names of the collection
      distinct. */
  lemma SaveKeepsNamesDistinct(tours: seq<Tour>, doc: Tour, isNew: bool, slugify: string -> string)
    requires isNew ==> doc.id == |tours|
    requires !isNew ==> doc.id < |tours|
    requires DistinctNames(tours)
    ensures DistinctNames(SaveTour(tours, doc, isNew, slugify).tours)
  {
  }

  /** The slug is a function of the name alone: whatever slug a document
      carried, saving it again changes nothing. */
  lemma {:induction false} SaveTourIdempotent(tours: seq<Tour>, doc: Tour, slugify: string -> string)
    requires doc.id < |tours|
    requires SaveTour(tours, doc, false, slugify).failure.None?
    ensures var o := SaveTour(tours, doc, false, slugify);
            SaveTour(o.tours, o.doc, false, slugify) == o
  {
    var o := SaveTour(tours, doc, false, slugify);
    assert TourValidationErrors(o.doc) == TourValidationErrors(doc);
    assert o.tours[doc.id := o.doc] == o.tours;
  }

  /** Two documents that differ only in their slug save to the same record. */
  lemma SlugIgnoresPreviousSlug(tours: seq<Tour>, doc: Tour, slug: Option<string>, isNew: bool, slugify: string -> string)
    requires isNew ==> doc.id == |tours|
    requires !isNew ==> doc.id < |tours|
    requires Conforms(doc)
    ensures SaveTour(tours, doc.(slug := slug), isNew, slugify) == SaveTour(tours, doc, isNew, slugify)
  {
    assert TourValidationErrors(doc.(slug := slug)) == TourValidationErrors(doc) == [];
  }

  /** The `tours` collection; ids are positions. */
  class TourCollection {
    var tours: seq<Tour>

    constructor (initial: seq<Tour>)
      ensures tours == initial
    {
      tours := initial;
    }
  }

  /** A tour document in memory. */
  class TourDoc {
    var record: Tour
    var isNew: bool

    /** `new Tour(input)` with the next free id. */
    constructor Create(id: nat, input: TourInput)
      ensures record == NewTour(id, input) && isNew
    {
      new;
      record := NewTour(id, input);
      isNew := true;
    }

    /** The `pre('save')` hook: `this.slug = slugify(this.name, { lower: true })`. */
    method SlugHook(slugify: string -> string)
      modifies this
      ensures record == old(record).(slug := Some(slugify(old(record).name)))
      ensures isNew == old(isNew)
    {
      record := record.(slug := Some(slugify(record.name)));
    }

    /** `doc.save()` into `db`. */
    method Save(db: TourCollection, slugify: string -> string) returns (failure: Option<Failure>)
      requires isNew ==> record.id == |db.tours|
      requires !isNew ==> record.id < |db.tours|
      modifies this, db
      ensures var o := SaveTour(old(db.tours), old(record), old(isNew), slugify);
              failure == o.failure && record == o.doc && db.tours == o.tours
      ensures failure.None? ==> !isNew
      ensures failure.Some? ==> isNew == old(isNew)
    {
      var errors := TourValidationErrors(record);
      if errors != [] {
        return Some(ValidationFailed(errors));
      }
      SlugHook(slugify);
      if NameTaken(db.tours, record.name, record.id) {
        return Some(DuplicateKey("name"));
      }
      if isNew {
        db.tours := db.tours + [record];
      } else {
        db.tours := db.tours[record.id := record];
      }
      isNew := false;
      failure := None;
    }
  }

  // Queries.

  /** `{ secretTour: { $ne: true } }`: a record without the path matches. */
  predicate NotSecret(t: Tour)
  {
    t.secretTour != Some(true)
  }

  /** The conditions of a query, all of which a result must meet. */
  predicate MeetsAll(conditions: seq<Tour -> bool>, t: Tour)
  {
    forall k :: 0 <= k < |conditions| ==> conditions[k](t)
  }

  /** Running a query: the records that meet every condition, in natural order. */
  function Run(tours: seq<Tour>, conditions: seq<Tour -> bool>): (r: seq<Tour>)
    ensures |r| <= |tours|
    ensures forall t :: t in r ==> t in tours && MeetsAll(conditions, t)
    ensures forall t :: t in tours && MeetsAll(conditions, t) ==> t in r
  {
    if tours == [] then []
    else (if MeetsAll(conditions, tours[0]) then [tours[0]] else []) + Run(tours[1..], conditions)
  }

  /** The records of `tours` that are not secret, in order. */
  function Public(tours: seq<Tour>): (r: seq<Tour>)
    ensures forall t :: t in r <==> t in tours && NotSecret(t)
  {
    if tours == [] then []
    else (if NotSecret(tours[0]) then [tours[0]] else []) + Public(tours[1..])
  }

  /** A find-family query under construction. */
  class TourQuery {
    var conditions: seq<Tour -> bool>

    constructor (filter: seq<Tour -> bool>)
      ensures conditions == filter
    {
      conditions := filter;
    }

    /** The first `pre(/^find/)` hook: `this.find({ secretTour: { $ne: true } })`. */
    method HideSecretTours()
      modifies this
      ensures conditions == old(conditions) + [(t: Tour) => NotSecret(t)]
    {
      conditions := conditions + [(t: Tour) => NotSecret(t)];
    }
  }

  /** With the hook's condition added, a query returns exactly what it
      returned before minus the secret tours, in the same order. */
  lemma {:induction false} HiddenSecretTours(tours: seq<Tour>, conditions: seq<Tour -> bool>)
    ensures Run(tours, conditions + [(t: Tour) => NotSecret(t)]) == Public(Run(tours, conditions))
  {
    if tours != [] {
      HiddenSecretTours(tours[1..], conditions);
      var hooked := conditions + [(t: Tour) => NotSecret(t)];
      var head := if MeetsAll(conditions, tours[0]) then [tours[0]] else [];
      assert MeetsAll(hooked, tours[0]) <==> MeetsAll(conditions, tours[0]) && NotSecret(tours[0]) by {
        assert hooked[|conditions|](tours[0]) == NotSecret(tours[0]);
        forall k | 0 <= k < |conditions|
          ensures hooked[k] == conditions[k]
        {
        }
      }
      PublicAppend(head, Run(tours[1..], conditions));
    }
  }

  lemma {:induction false} PublicAppend(a: seq<Tour>, b: seq<Tour>)
    ensures Public(a + b) == Public(a) + Public(b)
  {
    if a == [] {
      assert a + b == b;
    } else {
      assert (a + b)[0] == a[0];
      assert (a + b)[1..] == a[1..] + b;
      PublicAppend(a[1..], b);
      assert Public(a + b) == (if NotSecret(a[0]) then [a[0]] else []) + Public(a[1..] + b);
    }
  }
}
