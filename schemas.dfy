/** The profile-creation request schema and its two field validators:
    the birthday must give a whole-year age between 18 and 120 on the
    current date, and at most six image URLs may be submitted. The current
    date is a parameter, since the validator reads it from the clock. */
module Schemas {
  import opened Wrappers
  import opened Dates

  const MinAge := 18
  const MaxAge := 120
  const MaxImages := 6

  const TooYoungMessage := "Must be at least 18 years old"
  const InvalidBirthDateMessage := "Invalid birth date"
  const TooManyImagesMessage := "Maximum 6 images allowed"

  /** The fields that carry a validator. */
  datatype Field = Birthday | ImageUrls

  /** A validator's `ValueError`, located at the field it rejected. */
  datatype FieldError = FieldError(field: Field, message: string)

  /** A validated profile-creation body. `genderId` is part of the schema
      but, unlike the other scalar fields, is never stored. */
  datatype ProfileCreate = ProfileCreate(
    username: string,
    introduction: string,
    birthday: Date,
    genderId: int,
    sexualOrientationId: int,
    interestIds: seq<int>,
    imageUrls: seq<string>)

  /** A profile-creation body as submitted: the two list fields may be omitted. */
  datatype ProfileCreateBody = ProfileCreateBody(
    username: string,
    introduction: string,
    birthday: Date,
    genderId: int,
    sexualOrientationId: int,
    interestIds: Option<seq<int>>,
    imageUrls: Option<seq<string>>)

  /** Whole years from `birthday` to `today`: the year difference, less one
      (a Python `True` subtracted as 1) while this year's birthday is still ahead. */
  function Age(birthday: Date, today: Date): (age: int)
    ensures age == today.year - birthday.year || age == today.year - birthday.year - 1
  {
    today.year - birthday.year - (if MonthDayBefore(today, birthday) then 1 else 0)
  }

  /** `validate_age`: the birthday itself when the age is in range, otherwise
      the message of the first bound it breaks. */
  function ValidateAge(birthday: Date, today: Date): (r: Result<Date, string>)
    ensures r.Ok? <==> MinAge <= Age(birthday, today) <= MaxAge
    ensures r.Ok? ==> r.value == birthday
    ensures r == Err(TooYoungMessage) <==> Age(birthday, today) < MinAge
    ensures r == Err(InvalidBirthDateMessage) <==> Age(birthday, today) > MaxAge
  {
    var age := Age(birthday, today);
    if age < MinAge then Err(TooYoungMessage)
    else if age > MaxAge then Err(InvalidBirthDateMessage)
    else Ok(birthday)
  }

  /** `validate_images`: the list itself when it holds at most six URLs. */
  function ValidateImages(imageUrls: seq<string>): (r: Result<seq<string>, string>)
    ensures r.Ok? <==> |imageUrls| <= MaxImages
    ensures r.Ok? ==> r.value == imageUrls
    ensures r.Err? ==> r.error == TooManyImagesMessage
  {
    if |imageUrls| > MaxImages then Err(TooManyImagesMessage) else Ok(imageUrls)
  }

  /** Validation of a whole body. Both validators run and their errors are
      collected in field order; an omitted list becomes `[]` and, being a
      default, is not passed to its validator. */
  function ValidateProfileCreate(body: ProfileCreateBody, today: Date): (r: Result<ProfileCreate, seq<FieldError>>)
    ensures r.Ok? <==>
      MinAge <= Age(body.birthday, today) <= MaxAge &&
      (body.imageUrls.Some? ==> |body.imageUrls.value| <= MaxImages)
    ensures r.Ok? ==>
      r.value.username == body.username &&
      r.value.introduction == body.introduction &&
      r.value.birthday == body.birthday &&
      r.value.genderId == body.genderId &&
      r.value.sexualOrientationId == body.sexualOrientationId &&
      r.value.interestIds == (if body.interestIds.Some? then body.interestIds.value else []) &&
      r.value.imageUrls == (if body.imageUrls.Some? then body.imageUrls.value else [])
    ensures r.Err? ==>
      1 <= |r.error| <= 2 &&
      (FieldError(Birthday, TooYoungMessage) in r.error <==> Age(body.birthday, today) < MinAge) &&
      (FieldError(Birthday, InvalidBirthDateMessage) in r.error <==> Age(body.birthday, today) > MaxAge) &&
      (FieldError(ImageUrls, TooManyImagesMessage) in r.error <==>
         body.imageUrls.Some? && |body.imageUrls.value| > MaxImages)
    ensures r.Err? ==>
      (forall i :: 0 <= i < |r.error| ==>
         r.error[i] in {FieldError(Birthday, TooYoungMessage), FieldError(Birthday, InvalidBirthDateMessage),
                        FieldError(ImageUrls, TooManyImagesMessage)}) &&
      |r.error| == (if MinAge <= Age(body.birthday, today) <= MaxAge then 0 else 1) +
                   (if body.imageUrls.Some? && |body.imageUrls.value| > MaxImages then 1 else 0) &&
      (|r.error| == 2 ==> r.error[0].field == Birthday && r.error[1].field == ImageUrls)
  {
    var birthday := ValidateAge(body.birthday, today);
    var images := if body.imageUrls.Some? then ValidateImages(body.imageUrls.value) else Ok([]);
    var errors :=
      (if birthday.Err? then [FieldError(Birthday, birthday.error)] else []) +
      (if images.Err? then [FieldError(ImageUrls, images.error)] else []);
    if errors == [] then
      Ok(ProfileCreate(body.username, body.introduction, birthday.value, body.genderId,
                       body.sexualOrientationId, body.interestIds.GetOr([]), images.value))
    else
      Err(errors)
  }

  /** The age counts the anniversaries of the birthday reached by `today`:
      it is the one `n` whose `n`-th anniversary is not after `today` and
      whose next one is. */
  lemma AgeIsWholeYearsElapsed(birthday: Date, today: Date, n: int)
    ensures n == Age(birthday, today) <==>
      !Before(today, Anniversary(birthday, n)) && Before(today, Anniversary(birthday, n + 1))
  {
  }

  /** On the birthday's own month and day the age is the plain year difference. */
  lemma AgeOnBirthday(birthday: Date, today: Date)
    requires today.month == birthday.month && today.day == birthday.day
    ensures Age(birthday, today) == today.year - birthday.year
  {
  }

  /** A later date never gives a smaller age. */
  lemma AgeMonotone(birthday: Date, earlier: Date, later: Date)
    requires !Before(later, earlier)
    ensures Age(birthday, earlier) <= Age(birthday, later)
  {
  }

  /** A birthday is accepted exactly when its 18th anniversary has been
      reached and its 121st has not. */
  lemma AcceptedBirthdayWindow(birthday: Date, today: Date)
    ensures ValidateAge(birthday, today).Ok? <==>
      !Before(today, Anniversary(birthday, MinAge)) && Before(today, Anniversary(birthday, MaxAge + 1))
  {
  }

  /** A birthday of 15 June 2000 gives 23 on 14 June 2024 and 24 on 15 June 2024. */
  lemma AgeExample()
    ensures Age(Date(2000, 6, 15), Date(2024, 6, 14)) == 23
    ensures Age(Date(2000, 6, 15), Date(2024, 6, 15)) == 24
  {
  }
}
