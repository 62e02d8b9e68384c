# Profile creation in the palinur user service, modelled in Dafny

The user service keeps dating-app profiles in a relational store. This model
covers its two pieces of real logic:

- **Validating a profile-creation body** (`schemas.py`). The birthday must give
  a whole-year age from 18 to 120 on the current date. The age is the year
  difference, less one while this year's (month, day) is still ahead. At most
  six image URLs may be submitted. Omitted `interest_ids` and `image_urls`
  default to empty lists.
- **Creating a profile** (`routers/users_router.py`). A duplicate user id is
  refused with HTTP 400 "Profile already exists". Otherwise the handler stores
  a profile row under the user id. It then adds one interest link per
  submitted id and one image row per submitted URL, in input order, and only
  the first image is primary. Reading the reference tables returns every
  stored orientation and interest.

Files:

- `wrappers.dfy`: `Option` and `Result`.
- `dates.dfy`: a date as a (year, month, day) triple, the tuple comparisons, anniversaries.
- `schemas.dfy`: the request schema, the two validators, and lemmas about the age rule.
- `models.dfy`: row shapes of the tables, and a profile's links and images read off the tables.
- `users_router.dfy`: the store as a value (`Db`), the effect of creation
  (`CreateProfileSpec`) and its lemmas, and the `ProfileStore` class. The
  class's `CreateProfile` adds rows in loops, as the handler adds them to
  the session, and is proved to reach the state `CreateProfileSpec` gives.

Two quirks of the source are kept as they are:

- `gender_id` is a required field of the creation body, but the profile row has
  no gender column and the handler does not copy it (`GenderIdNotStored`).
- The reference-data handler returns orientations and interests but no
  `genders` key, although the response schema `MergeInfo` declares one.
  `ReferenceData` has no genders field.

The current date is a parameter (`today`). The source reads it from the clock.

## Model

| member | source | states |
|---|---|---|
| `Schemas.Age` | schemas.py:17-18 | the age is either the year difference or the year difference minus one |
| `Schemas.AgeIsWholeYearsElapsed` | schemas.py:18 | the age is the unique n whose n-th anniversary is not after today and whose (n+1)-th is |
| `Schemas.AgeOnBirthday` | schemas.py:18 | on the birthday's own month and day the age is the year difference |
| `Schemas.AgeMonotone` | schemas.py:18 | a later current date never gives a smaller age |
| `Schemas.AgeExample` | schemas.py:18 | a birthday of 2000-06-15 gives 23 on 2024-06-14 and 24 on 2024-06-15 |
| `Schemas.ValidateAge` | schemas.py:15-25 | accepted iff 18 <= age <= 120, then returns the birthday unchanged; "Must be at least 18 years old" iff age < 18; "Invalid birth date" iff age > 120 |
| `Schemas.AcceptedBirthdayWindow` | schemas.py:18-23 | a birthday is accepted iff its 18th anniversary has been reached and its 121st has not |
| `Schemas.ValidateImages` | schemas.py:27-31 | accepted iff at most 6 URLs, then returns the list unchanged; otherwise "Maximum 6 images allowed" |
| `Schemas.ValidateProfileCreate` | schemas.py:6-31 | a body is accepted iff the age is in range and any submitted URL list has at most 6 entries; accepted fields equal the submitted ones, omitted lists become empty; on rejection the errors are exactly one per broken rule, each the message of that rule at its own field, the birthday error before the image error |
| `Models.InterestIdsOf` | models.py:20 | each read-back id comes from a link row of that profile, every link row of the profile is read back, and there are as many ids as the profile has link rows |
| `Models.InterestIdsOfMultiplicity` | models.py:20 | each interest id is read back for a profile exactly as often as the profile has a link row to it, so duplicate links are kept |
| `Models.ImagesOf` | models.py:23 | each read-back image is a row of that profile, every row of the profile is included, and there are as many as the profile has rows |
| `Models.ImagesOfMultiplicity` | models.py:23 | each image row is read back for a profile exactly as often as it occurs in the table when it belongs to that profile, and never otherwise |
| `UsersRouter.NewProfile` | routers/users_router.py:34-40 | the profile row built from a body has id = user id and the body's username, birthday, introduction and orientation (no gender) |
| `UsersRouter.CreateProfileSpec` | routers/users_router.py:27-69 | creation fails iff the user id is already stored, and then leaves the tables as they were; on success the response reports the user id, exactly that id is added to the profiles, and the link and image tables keep their old rows as a prefix and grow by one row per submitted interest id and URL |
| `UsersRouter.LinkRows` | routers/users_router.py:46-52 | one link row per submitted interest id, the k-th linking the profile to the k-th id |
| `UsersRouter.ImageRows` | routers/users_router.py:54-61 | one image row per submitted URL, the k-th carrying the k-th URL and primary iff k = 0 |
| `UsersRouter.SecondaryImageRows` | routers/users_router.py:55-61 | the image rows after the first: one per URL, in order, none primary |
| `UsersRouter.CreateRejectsDuplicate` | routers/users_router.py:27-32 | an existing user id is refused with 400 "Profile already exists" and the store is unchanged |
| `UsersRouter.CreateStoresProfile` | routers/users_router.py:34-69 | a new user id gets a profile with id = user id and the body's username, birthday, introduction and orientation; other profiles and the reference tables are unchanged; the response reports profile_id = user_id |
| `UsersRouter.GenderIdNotStored` | routers/users_router.py:34-40 | the submitted gender id has no effect on the stored tables |
| `UsersRouter.CreatePreservesValid` | routers/users_router.py:34-63 | creation keeps every profile under its own id and every link and image row tied to a stored profile |
| `UsersRouter.CreateInterestsReadBack` | routers/users_router.py:46-52 | the new profile's links read back as exactly the submitted ids, in order, duplicates kept, existing interest or not |
| `UsersRouter.CreateKeepsOtherInterests` | routers/users_router.py:46-52 | creating one profile leaves every other profile's links unchanged, and a refused creation changes no links |
| `UsersRouter.LinkRowsReadBack` | routers/users_router.py:46-52 | the link rows built for a profile read back as the ids they were built from |
| `UsersRouter.CreateImagesReadBack` | routers/users_router.py:54-61 | the new profile's images read back as exactly one row per submitted URL, in order, primary iff first |
| `UsersRouter.CreateKeepsOtherImages` | routers/users_router.py:54-61 | creating one profile leaves every other profile's images unchanged, and a refused creation changes no images |
| `UsersRouter.PrimaryImageCount` | routers/users_router.py:54-61 | in the store after creation, a profile created with at least one URL has exactly one primary image, and one created with none has zero |
| `UsersRouter.ProfileStore.GetOrientationsInterests` | routers/users_router.py:9-18 | returns every stored orientation and every stored interest, in table order, unfiltered |
| `UsersRouter.ProfileStore.CreateProfile` | routers/users_router.py:20-69 | adding the profile, then the links, then the images step by step reaches exactly the tables and response of `CreateProfileSpec`, and keeps the store valid |
| `UsersRouter.ProfileStore.CompleteProfile` | routers/users_router.py:20-25 | an invalid body is refused with status 422 and its field errors, and the store is unchanged; a valid one is created as `CreateProfileSpec` says |

## Left out

- The clock: `date.today()` is the parameter `today`.
- Calendar validity of dates is not modelled. The age rule only compares (year, month, day) triples. An anniversary of 29 February is the triple, not a real date.
- Pydantic's type coercion and required-field checks: bodies are already well typed. Error messages are kept as the validators raise them, without the framework's "Value error, " prefix.
- The framework's check of the reference-data reply. The route declares `MergeInfo` as its response model (routers/users_router.py:9), and `MergeInfo` requires a `genders` list (schemas.py:94) that the handler does not return. So every request to this route fails response validation and gets a server error instead of the data. `GetOrientationsInterests` models the handler's return value, not the HTTP reply.
- Creation is not atomic: the handler commits the profile row (routers/users_router.py:43) and then the links and images in a second commit (routers/users_router.py:63). A database failure between or during the commits is not modelled. Only the success path and the duplicate-id error are.
- Integer width of the id columns: ids are unbounded integers here. An id outside the column's range makes the database raise, either at the existence query (routers/users_router.py:27) or at the first commit (routers/users_router.py:43), depending on the database. Nothing is stored in that case. The model does not capture this failure.
- Foreign keys on `sexual_orientation_id` and `interest_id` are not checked by the handler, so the model does not check them either. A database that enforces them could reject the commit.
- The auto-increment `id` columns of the link and image tables. A row's position in its table stands in for it.
- Joining links to interest names (`profile.interests` yields `Interest` rows): the model reads a profile's interests as the linked ids.
- Unique-name and cascade-delete constraints of the tables: no modelled operation creates interests or orientations or deletes profiles.
- Image hosting (`cloudinary_config.py`), settings and app wiring (`config.py`, `main.py`): external services and start-up code.
- The update, delete, image upload and delete, interest listing and recommendation endpoints are not part of this model, and neither are their routes.
- `ProfileUpdate` and the profile response schemas: data shapes with no behaviour in the modelled handlers.
