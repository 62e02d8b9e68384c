/** Row shapes of the profile tables, and the two relationships of a
    profile that the creation handler fills: its interest links and its
    images. Auto-increment row ids of the link and image tables are not
    kept; a row's position in its table stands in for it. */
module Models {
  import opened Dates

  /** A profile row: the identifier is the caller's user id. No gender column. */
  datatype Profile = Profile(
    id: int,
    username: string,
    birthday: Date,
    introduction: string,
    sexualOrientationId: int)

  datatype Interest = Interest(id: int, interestName: string)

  /** A row of the profile-interest junction table. */
  datatype UserInterest = UserInterest(profileId: int, interestId: int)

  datatype ProfileImage = ProfileImage(profileId: int, imageUrl: string, isPrimary: bool)

  datatype SexualOrientation = SexualOrientation(id: int, orientationName: string)

  /** The interest ids linked to profile `profileId`, in table order. */
  function InterestIdsOf(links: seq<UserInterest>, profileId: int): (ids: seq<int>)
    ensures |ids| <= |links|
    ensures forall i :: 0 <= i < |ids| ==> UserInterest(profileId, ids[i]) in links
    ensures forall i :: 0 <= i < |links| && links[i].profileId == profileId ==> links[i].interestId in ids
    ensures |ids| == CountRowsOf(links, profileId)
  {
    if links == [] then []
    else
      (if links[0].profileId == profileId then [links[0].interestId] else []) +
      InterestIdsOf(links[1..], profileId)
  }

  /** The image rows of profile `profileId`, in table order. */
  function ImagesOf(images: seq<ProfileImage>, profileId: int): (own: seq<ProfileImage>)
    ensures |own| <= |images|
    ensures forall i :: 0 <= i < |own| ==> own[i] in images && own[i].profileId == profileId
    ensures forall i :: 0 <= i < |images| && images[i].profileId == profileId ==> images[i] in own
    ensures |own| == CountImagesOf(images, profileId)
  {
    if images == [] then []
    else
      (if images[0].profileId == profileId then [images[0]] else []) +
      ImagesOf(images[1..], profileId)
  }

  /** How many link rows belong to profile `profileId`. */
  function CountRowsOf(links: seq<UserInterest>, profileId: int): nat {
    if links == [] then 0
    else (if links[0].profileId == profileId then 1 else 0) + CountRowsOf(links[1..], profileId)
  }

  /** How many image rows belong to profile `profileId`. */
  function CountImagesOf(images: seq<ProfileImage>, profileId: int): nat {
    if images == [] then 0
    else (if images[0].profileId == profileId then 1 else 0) + CountImagesOf(images[1..], profileId)
  }

  /** How many of `images` are marked primary. */
  function CountPrimary(images: seq<ProfileImage>): nat {
    if images == [] then 0
    else (if images[0].isPrimary then 1 else 0) + CountPrimary(images[1..])
  }

  /** Each interest id is read back for a profile exactly as often as the
      profile has a link row to it: duplicate links are kept. */
  lemma {:induction false} InterestIdsOfMultiplicity(links: seq<UserInterest>, profileId: int, v: int)
    ensures multiset(InterestIdsOf(links, profileId))[v] == multiset(links)[UserInterest(profileId, v)]
  {
    if links != [] {
      assert links == [links[0]] + links[1..];
      InterestIdsOfMultiplicity(links[1..], profileId, v);
    }
  }

  /** Each image row is read back for a profile exactly as often as it occurs
      in the table when it belongs to that profile, and never otherwise. */
  lemma {:induction false} ImagesOfMultiplicity(images: seq<ProfileImage>, profileId: int, img: ProfileImage)
    ensures multiset(ImagesOf(images, profileId))[img] ==
      if img.profileId == profileId then multiset(images)[img] else 0
  {
    if images != [] {
      assert images == [images[0]] + images[1..];
      ImagesOfMultiplicity(images[1..], profileId, img);
    }
  }

  /** Reading a profile's links off two concatenated tables reads each in turn. */
  lemma {:induction false} InterestIdsOfAppend(a: seq<UserInterest>, b: seq<UserInterest>, profileId: int)
    ensures InterestIdsOf(a + b, profileId) == InterestIdsOf(a, profileId) + InterestIdsOf(b, profileId)
  {
    if a != [] {
      assert (a + b)[1..] == a[1..] + b;
      InterestIdsOfAppend(a[1..], b, profileId);
    } else {
      assert a + b == b;
    }
  }

  /** A table with no row for `profileId` links it to nothing. */
  lemma {:induction false} InterestIdsOfAbsent(links: seq<UserInterest>, profileId: int)
    requires forall i :: 0 <= i < |links| ==> links[i].profileId != profileId
    ensures InterestIdsOf(links, profileId) == []
  {
    if links != [] {
      InterestIdsOfAbsent(links[1..], profileId);
    }
  }

  /** Reading a profile's images off two concatenated tables reads each in turn. */
  lemma {:induction false} ImagesOfAppend(a: seq<ProfileImage>, b: seq<ProfileImage>, profileId: int)
    ensures ImagesOf(a + b, profileId) == ImagesOf(a, profileId) + ImagesOf(b, profileId)
  {
    if a != [] {
      assert (a + b)[1..] == a[1..] + b;
      ImagesOfAppend(a[1..], b, profileId);
    } else {
      assert a + b == b;
    }
  }

  /** A table with no row for `profileId` gives it no images. */
  lemma {:induction false} ImagesOfAbsent(images: seq<ProfileImage>, profileId: int)
    requires forall i :: 0 <= i < |images| ==> images[i].profileId != profileId
    ensures ImagesOf(images, profileId) == []
  {
    if images != [] {
      ImagesOfAbsent(images[1..], profileId);
    }
  }

  /** A table whose every row belongs to `profileId` gives it all of them. */
  lemma {:induction false} ImagesOfOwned(images: seq<ProfileImage>, profileId: int)
    requires forall i :: 0 <= i < |images| ==> images[i].profileId == profileId
    ensures ImagesOf(images, profileId) == images
  {
    if images != [] {
      ImagesOfOwned(images[1..], profileId);
    }
  }

  /** A table in which only the first row is primary has one primary row, or none when empty. */
  lemma {:induction false} CountPrimaryFirstOnly(images: seq<ProfileImage>)
    requires forall i :: 0 <= i < |images| ==> (images[i].isPrimary <==> i == 0)
    ensures CountPrimary(images) == if images == [] then 0 else 1
  {
    if images != [] {
      NoPrimary(images[1..]);
    }
  }

  /** A table with no primary row counts zero. */
  lemma {:induction false} NoPrimary(images: seq<ProfileImage>)
    requires forall i :: 0 <= i < |images| ==> !images[i].isPrimary
    ensures CountPrimary(images) == 0
  {
    if images != [] {
      NoPrimary(images[1..]);
    }
  }
}
