/** The two user-router handlers over an in-memory store of the profile
    tables: reading the reference tables, and creating a profile with its
    interest links and images. The store's contents as a value (`Db`) and
    the effect of creation on it (`CreateProfileSpec`) are pure; the
    `ProfileStore` class updates its tables step by step as the handler
    adds rows to the session, and is proved to reach the state
    `CreateProfileSpec` describes. */
module UsersRouter {
  import opened Wrappers
  import opened Dates
  import opened Schemas
  import opened Models

  const HttpBadRequest := 400
  const HttpUnprocessableEntity := 422
  const ProfileExistsMessage := "Profile already exists"
  const CreatedMessage := "Profile created successfully"

  /** What a request can fail with: the framework's rejection of an invalid
      body, or an `HTTPException` raised by the handler. */
  datatype ApiError =
    | ValidationFailed(statusCode: int, errors: seq<FieldError>)
    | HttpException(statusCode: int, detail: string)

  /** The success body of profile creation. */
  datatype CreateResponse = CreateResponse(message: string, profileId: int, userId: int)

  /** The reference-data body: orientations and interests, and no genders. */
  datatype ReferenceData = ReferenceData(sexualOrientations: seq<SexualOrientation>, interests: seq<Interest>)

  /** The tables the handlers touch. */
  datatype Db = Db(
    profiles: map<int, Profile>,
    userInterests: seq<UserInterest>,
    profileImages: seq<ProfileImage>,
    sexualOrientations: seq<SexualOrientation>,
    interests: seq<Interest>)

  /** Every profile is stored under its own id, and every link and image row
      belongs to a stored profile. Interest ids are not required to exist. */
  predicate ValidDb(db: Db) {
    (forall id :: id in db.profiles ==> db.profiles[id].id == id) &&
    (forall i :: 0 <= i < |db.userInterests| ==> db.userInterests[i].profileId in db.profiles) &&
    (forall i :: 0 <= i < |db.profileImages| ==> db.profileImages[i].profileId in db.profiles)
  }

  /** The profile row built from a creation body: `genderId` is dropped. */
  function NewProfile(userId: int, data: ProfileCreate): (p: Profile)
    ensures p.id == userId
    ensures p.username == data.username && p.birthday == data.birthday &&
            p.introduction == data.introduction && p.sexualOrientationId == data.sexualOrientationId
  {
    Profile(userId, data.username, data.birthday, data.introduction, data.sexualOrientationId)
  }

  /** One link row per interest id, in input order. */
  function LinkRows(profileId: int, interestIds: seq<int>): (rows: seq<UserInterest>)
    ensures |rows| == |interestIds|
    ensures forall k :: 0 <= k < |rows| ==> rows[k] == UserInterest(profileId, interestIds[k])
  {
    if interestIds == [] then []
    else [UserInterest(profileId, interestIds[0])] + LinkRows(profileId, interestIds[1..])
  }

  /** One image row per URL, in input order; only the first is primary. */
  function ImageRows(profileId: int, imageUrls: seq<string>): (rows: seq<ProfileImage>)
    ensures |rows| == |imageUrls|
    ensures forall k :: 0 <= k < |rows| ==> rows[k] == ProfileImage(profileId, imageUrls[k], k == 0)
  {
    if imageUrls == [] then []
    else [ProfileImage(profileId, imageUrls[0], true)] + SecondaryImageRows(profileId, imageUrls[1..])
  }

  /** Image rows that are not primary, one per URL, in input order. */
  function SecondaryImageRows(profileId: int, imageUrls: seq<string>): (rows: seq<ProfileImage>)
    ensures |rows| == |imageUrls|
    ensures forall k :: 0 <= k < |rows| ==> rows[k] == ProfileImage(profileId, imageUrls[k], false)
  {
    if imageUrls == [] then []
    else [ProfileImage(profileId, imageUrls[0], false)] + SecondaryImageRows(profileId, imageUrls[1..])
  }

  /** The effect of creating profile `userId` from a validated body: the new
      tables and the response. */
  function CreateProfileSpec(db: Db, userId: int, data: ProfileCreate): (out: (Db, Result<CreateResponse, ApiError>))
    ensures out.1.Err? <==> userId in db.profiles
    ensures out.1.Err? ==> out.0 == db
    ensures out.1.Ok? ==>
      out.1.value.profileId == userId && out.1.value.userId == userId &&
      out.0.profiles.Keys == db.profiles.Keys + {userId} &&
      |out.0.userInterests| == |db.userInterests| + |data.interestIds| &&
      |out.0.profileImages| == |db.profileImages| + |data.imageUrls| &&
      out.0.userInterests[..|db.userInterests|] == db.userInterests &&
      out.0.profileImages[..|db.profileImages|] == db.profileImages
  {
    if userId in db.profiles then
      (db, Err(HttpException(HttpBadRequest, ProfileExistsMessage)))
    else
      (db.(profiles := db.profiles[userId := NewProfile(userId, data)],
           userInterests := db.userInterests + LinkRows(userId, data.interestIds),
           profileImages := db.profileImages + ImageRows(userId, data.imageUrls)),
       Ok(CreateResponse(CreatedMessage, userId, userId)))
  }

  /** A duplicate user id is refused with a 400 and the tables are left as they were. */
  lemma CreateRejectsDuplicate(db: Db, userId: int, data: ProfileCreate)
    requires userId in db.profiles
    ensures CreateProfileSpec(db, userId, data) == (db, Err(HttpException(HttpBadRequest, ProfileExistsMessage)))
  {
  }

  /** A new user id gets a profile under that id carrying the body's username,
      birthday, introduction and orientation; every other profile and both
      reference tables stay as they were; the response names the user id. */
  lemma CreateStoresProfile(db: Db, userId: int, data: ProfileCreate)
    requires userId !in db.profiles
    ensures var (db', r) := CreateProfileSpec(db, userId, data);
      r == Ok(CreateResponse(CreatedMessage, userId, userId)) &&
      db'.profiles.Keys == db.profiles.Keys + {userId} &&
      db'.profiles[userId] == Profile(userId, data.username, data.birthday, data.introduction, data.sexualOrientationId) &&
      (forall id :: id in db.profiles ==> db'.profiles[id] == db.profiles[id]) &&
      db'.sexualOrientations == db.sexualOrientations &&
      db'.interests == db.interests
  {
  }

  /** Two bodies that differ only in gender create the same tables. */
  lemma GenderIdNotStored(db: Db, userId: int, data: ProfileCreate, genderId: int)
    ensures CreateProfileSpec(db, userId, data).0 == CreateProfileSpec(db, userId, data.(genderId := genderId)).0
  {
  }

  /** Creation keeps every row tied to a stored profile under its own id. */
  lemma CreatePreservesValid(db: Db, userId: int, data: ProfileCreate)
    requires ValidDb(db)
    ensures ValidDb(CreateProfileSpec(db, userId, data).0)
  {
  }

  /** After creating `userId`, its interest links read back as the submitted
      ids, in order, duplicates kept and whether or not such interests exist. */
  lemma CreateInterestsReadBack(db: Db, userId: int, data: ProfileCreate)
    requires ValidDb(db) && userId !in db.profiles
    ensures InterestIdsOf(CreateProfileSpec(db, userId, data).0.userInterests, userId) == data.interestIds
  {
    var rows := LinkRows(userId, data.interestIds);
    InterestIdsOfAppend(db.userInterests, rows, userId);
    InterestIdsOfAbsent(db.userInterests, userId);
    LinkRowsReadBack(userId, data.interestIds);
  }

  /** Creating `userId` leaves the links of every other profile unchanged. */
  lemma CreateKeepsOtherInterests(db: Db, userId: int, data: ProfileCreate, other: int)
    requires other != userId
    ensures InterestIdsOf(CreateProfileSpec(db, userId, data).0.userInterests, other) ==
      InterestIdsOf(db.userInterests, other)
  {
    if userId !in db.profiles {
      var rows := LinkRows(userId, data.interestIds);
      InterestIdsOfAppend(db.userInterests, rows, other);
      InterestIdsOfAbsent(rows, other);
    }
  }

  /** The links built for a profile read back as the ids they were built from. */
  lemma {:induction false} LinkRowsReadBack(profileId: int, interestIds: seq<int>)
    ensures InterestIdsOf(LinkRows(profileId, interestIds), profileId) == interestIds
  {
    if interestIds != [] {
      var rows := LinkRows(profileId, interestIds);
      assert rows[1..] == LinkRows(profileId, interestIds[1..]);
      LinkRowsReadBack(profileId, interestIds[1..]);
    }
  }

  /** After creating `userId`, its images are exactly the rows built from the
      submitted URLs: one per URL, in order, the first and only the first primary. */
  lemma CreateImagesReadBack(db: Db, userId: int, data: ProfileCreate)
    requires ValidDb(db) && userId !in db.profiles
    ensures ImagesOf(CreateProfileSpec(db, userId, data).0.profileImages, userId) == ImageRows(userId, data.imageUrls)
  {
    var rows := ImageRows(userId, data.imageUrls);
    ImagesOfAppend(db.profileImages, rows, userId);
    ImagesOfAbsent(db.profileImages, userId);
    ImagesOfOwned(rows, userId);
  }

  /** Creating `userId` leaves the images of every other profile unchanged. */
  lemma CreateKeepsOtherImages(db: Db, userId: int, data: ProfileCreate, other: int)
    requires other != userId
    ensures ImagesOf(CreateProfileSpec(db, userId, data).0.profileImages, other) ==
      ImagesOf(db.profileImages, other)
  {
    if userId !in db.profiles {
      var rows := ImageRows(userId, data.imageUrls);
      ImagesOfAppend(db.profileImages, rows, other);
      ImagesOfAbsent(rows, other);
    }
  }

  /** A profile created with at least one URL has exactly one primary image
      in the store, and one created with none has zero. */
  lemma PrimaryImageCount(db: Db, userId: int, data: ProfileCreate)
    requires ValidDb(db) && userId !in db.profiles
    ensures CountPrimary(ImagesOf(CreateProfileSpec(db, userId, data).0.profileImages, userId)) ==
      if data.imageUrls == [] then 0 else 1
  {
    var rows := ImageRows(userId, data.imageUrls);
    CreateImagesReadBack(db, userId, data);
    CountPrimaryFirstOnly(rows);
    assert rows == [] <==> data.imageUrls == [];
  }

  /** The profile store the handlers run against. */
  class ProfileStore {
    var profiles: map<int, Profile>
    var userInterests: seq<UserInterest>
    var profileImages: seq<ProfileImage>
    var sexualOrientations: seq<SexualOrientation>
    var interests: seq<Interest>

    /** The store's tables as a value. */
    function State(): Db
      reads this
    {
      Db(profiles, userInterests, profileImages, sexualOrientations, interests)
    }

    predicate Valid()
      reads this
    {
      ValidDb(State())
    }

    /** An empty store over seeded reference tables. */
    constructor (sexualOrientations: seq<SexualOrientation>, interests: seq<Interest>)
      ensures Valid()
      ensures State() == Db(map[], [], [], sexualOrientations, interests)
    {
      this.profiles := map[];
      this.userInterests := [];
      this.profileImages := [];
      this.sexualOrientations := sexualOrientations;
      this.interests := interests;
    }

    /** `get_orientations_interests`: every stored orientation and interest, unfiltered. */
    method GetOrientationsInterests() returns (r: ReferenceData)
      ensures r.sexualOrientations == sexualOrientations && r.interests == interests
    {
      r := ReferenceData(sexualOrientations, interests);
    }

    /** `create_profile`: refuse a duplicate id; otherwise add the profile,
        then one link per interest id, then one image per URL. */
    method CreateProfile(userId: int, data: ProfileCreate) returns (r: Result<CreateResponse, ApiError>)
      requires Valid()
      modifies this
      ensures Valid()
      ensures (State(), r) == CreateProfileSpec(old(State()), userId, data)
    {
      if userId in profiles {
        return Err(HttpException(HttpBadRequest, ProfileExistsMessage));
      }
      ghost var before := State();
      var newProfile := NewProfile(userId, data);
      profiles := profiles[userId := newProfile];

      var ids := data.interestIds;
      if |ids| > 0 {
        for i := 0 to |ids|
          invariant |userInterests| == |before.userInterests| + i
          invariant userInterests[..|before.userInterests|] == before.userInterests
          invariant forall k :: 0 <= k < i ==> userInterests[|before.userInterests| + k] == UserInterest(userId, ids[k])
          invariant profiles == before.profiles[userId := newProfile]
          invariant profileImages == before.profileImages
          invariant sexualOrientations == before.sexualOrientations && interests == before.interests
        {
          userInterests := userInterests + [UserInterest(userId, ids[i])];
        }
      }
      assert userInterests == before.userInterests + LinkRows(userId, ids);

      var urls := data.imageUrls;
      if |urls| > 0 {
        for idx := 0 to |urls|
          invariant |profileImages| == |before.profileImages| + idx
          invariant profileImages[..|before.profileImages|] == before.profileImages
          invariant forall k :: 0 <= k < idx ==>
            profileImages[|before.profileImages| + k] == ProfileImage(userId, urls[k], k == 0)
          invariant profiles == before.profiles[userId := newProfile]
          invariant userInterests == before.userInterests + LinkRows(userId, ids)
          invariant sexualOrientations == before.sexualOrientations && interests == before.interests
        {
          profileImages := profileImages + [ProfileImage(userId, urls[idx], idx == 0)];
        }
      }
      assert profileImages == before.profileImages + ImageRows(userId, urls);

      CreatePreservesValid(before, userId, data);
      r := Ok(CreateResponse(CreatedMessage, newProfile.id, userId));
    }

    /** The POST route as a whole: the body is validated first, and an invalid
        one is refused with every field error before the handler runs. */
    method CompleteProfile(userId: int, body: ProfileCreateBody, today: Date) returns (r: Result<CreateResponse, ApiError>)
      requires Valid()
      modifies this
      ensures Valid()
      ensures match ValidateProfileCreate(body, today)
        case Err(errors) => r == Err(ValidationFailed(HttpUnprocessableEntity, errors)) && State() == old(State())
        case Ok(data) => (State(), r) == CreateProfileSpec(old(State()), userId, data)
    {
      var validated := ValidateProfileCreate(body, today);
      if validated.Err? {
        return Err(ValidationFailed(HttpUnprocessableEntity, validated.error));
      }
      r := CreateProfile(userId, validated.value);
    }
  }
}
