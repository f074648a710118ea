# CampusLink backend: document layer model

A Dafny model of the representational core of the CampusLink backend. This is a
FastAPI service that keeps users, posts, comments and internship offers in a
document store. The model covers three parts:

- **Serialization** (`serialization.dfy`, `documents.dfy`). `serialize_doc` turns
  every top-level `ObjectId` value of a fetched document into its string form. That
  form is the 24-character lower-case hexadecimal spelling of the 12 identifier bytes.
  It then moves the `_id` entry to `id`, overwriting an `id` that was already there.
  `serialize_list` does this to each document of a list.
  - The document transformation is a loop method, `SerializeDoc`, proved equal to
    the function `Serialized`.
  - The lemmas prove that no identifier value remains, that `_id` is renamed,
    that other entries keep their values, and that serializing twice changes
    nothing. Because the hexadecimal form is injective, distinct identifiers get
    distinct public ids.
- **Read endpoints** (`endpoints.dfy`, `ordering.dfy`). `list_users`, `list_posts`,
  `list_comments` and `list_offers` each do the same steps:
  - build a filter: for users, posts and offers key by key, where an empty or absent
    parameter adds no key and a tag becomes a list-membership criterion; for
    comments the filter is fixed to `{post_id: post_id}`, even when `post_id` is empty;
  - validate the `limit` query parameter against its bounds (users take no `limit`:
    their read is always capped at 200);
  - read from the store;
  - sort the documents in place by `created_at`: newest first for posts and
    offers, oldest first for comments, and not at all for users;
  - serialize the result.

  The store read is a function parameter `get(collection, filter, limit)`, so each
  endpoint's result is stated in terms of exactly what it asks the store for.
  The sort is a stable in-place insertion sort on an array, proved equal to the
  functional `StableSorted`. That function is proved to be sorted, a permutation of
  its input and stable: for every timestamp, the documents that carry it keep their
  fetched order. It is also proved to be the only arrangement with these three
  properties, so it agrees with any stable sort.
- **Record definitions** (`schemas.dfy`). These are the `Role` and `PostType`
  literals and the `User`, `Post`, `Comment` and `Offer` records, together with
  validation of a request body (a raw field map) into a record:
  - required fields must be present and of the right type;
  - literals must be one of their values;
  - optional fields default to absent, `verified` defaults to false and `tags`
    defaults to the empty list;
  - undeclared fields are ignored;
  - a rejected body reports each offending field.

  The document form of a record, as handed to the store, carries exactly the
  declared fields and validates back to the same record. The `_id` and any
  timestamp the store adds are outside the model.

Three behaviours of the code worth knowing:
- Serialization converts identifiers only at the top level of a document. Values
  nested in lists or sub-documents are left as they are.
- A post `type` or user `role` given as a list filter is not checked against the
  literal values.
- Sorting two or more documents when one of them lacks a `datetime` `created_at`
  fails with a `TypeError`, modelled as the error `Unsortable`. Zero or one
  document is never compared, so those lists are returned without error.

## Model

| member | source | states |
|---|---|---|
| Documents.IdString | main.py:28 | `str(ObjectId)` is a 24-character string of lower-case hexadecimal digits |
| Documents.HexInjective | main.py:28 | two byte strings with the same hexadecimal spelling are equal |
| Documents.IdStringInjective | main.py:28 | distinct identifiers have distinct string forms |
| Serialization.SerializeValue | main.py:27-30 | an identifier becomes exactly its canonical string form `IdString(id)` (24 lower-case hexadecimal digits); every other value is kept unchanged; no identifier is left |
| Serialization.SerializeValues | main.py:25-30 | the copy has the same keys; each value is the original value as `SerializeValue` converts it (identifiers become strings, everything else is kept); no identifier values remain |
| Serialization.Serialized | main.py:24-33 | no identifier values; no `_id` key; with `_id`, the keys are the old keys minus `_id` plus `id`, and `id` holds the stringified former `_id` (overwriting any `id`); without `_id`, the key set is unchanged; every other key keeps its value, converted if it was an identifier |
| Serialization.SerializeDoc | main.py:24-33 | the loop that copies entry by entry and then moves `_id` to `id` returns exactly `Serialized(doc)` |
| Serialization.SerializedIdempotent | main.py:24-33 | serializing an already serialized document changes nothing |
| Serialization.SerializedIdsDistinct | main.py:28-32 | documents whose `_id`s are distinct identifiers get distinct public `id`s |
| Serialization.SerializedRefsDistinct | main.py:27-30 | identifiers held in any other field (references to other documents) also stay distinct once serialized |
| Serialization.SerializeList | main.py:36-37 | same length; the i-th output is the i-th input serialized and holds no identifiers |
| Serialization.SerializeListAppend | main.py:36-37 | serializing a concatenation is the concatenation of the serialized parts, so order is preserved |
| Serialization.SerializeListIdempotent | main.py:36-37 | serializing a serialized list changes nothing |
| Ordering.Insert | main.py:117 | inserting one element yields a list one longer |
| Ordering.InsertPermutes | main.py:117 | inserting adds exactly that element to the multiset |
| Ordering.StableSorted | main.py:117 | the sorted list has the input's length |
| Ordering.StableSortedPermutes | main.py:117 | the sorted list is a permutation of the fetched documents |
| Ordering.InsertSorted | main.py:117 | inserting into a sorted list keeps it sorted |
| Ordering.StableSortedSorted | main.py:117 | the result is ordered by `created_at`: non-increasing when newest first (posts, offers), non-decreasing when oldest first (comments, main.py:132) |
| Ordering.InsertWithKey | main.py:117 | an inserted element goes after every element that has its timestamp |
| Ordering.StableSortedStable | main.py:117 | for every timestamp, the documents that carry it appear in fetched order, in both directions (Python's sort is stable also with `reverse=True`) |
| Ordering.SameRunsEqual | main.py:117 | two sorted lists with the same documents, in the same order for each timestamp, are equal |
| Ordering.StableSortedUnique | main.py:117 | any sorted arrangement that keeps each timestamp's documents in fetched order equals `StableSorted`, so the model's sort agrees with any stable sort |
| Ordering.ThreeDistinctTimes | main.py:117 | items stamped t1 < t2 < t3 come out t3, t2, t1 newest first and t1, t2, t3 oldest first |
| Ordering.InsertAt | main.py:117 | the insertion point is after the last element that may precede the new one |
| Ordering.InsertInPlace | main.py:117 | one insertion step rearranges the array prefix into `Insert` of the old prefix and leaves the rest alone |
| Ordering.SortInPlace | main.py:117 | the in-place sort leaves the array equal to `StableSorted` of its old contents |
| Endpoints.ResolveLimit | main.py:106 | an omitted limit takes the default; a given one is accepted exactly when it is within 1..max and is then used as is; otherwise the request is rejected on `limit`; an accepted limit always lies in 1..max |
| Endpoints.UsersFilter | main.py:86-88 | the key `role` is present exactly when a non-empty role is given, with that value; there are no other keys |
| Endpoints.PostsFilter | main.py:108-114 | `type` and `created_by` are present exactly when non-empty and given, with those values; `tags` is present exactly when a non-empty tag is given, as membership of that single tag; there are no other keys |
| Endpoints.OffersFilter | main.py:146-150 | `post_id` and `created_by` are present exactly when non-empty and given, with those values; there are no other keys |
| Endpoints.SortAndSerialize | main.py:117-118 | fails exactly when the documents are not sortable; otherwise returns the stable sort, serialized |
| Endpoints.ListUsers | main.py:84-90 | reads collection `user` with the users filter and the fixed limit 200, and returns the serialized documents in store order |
| Endpoints.ListPosts | main.py:101-118 | rejects a limit outside 1..200 (default 50); otherwise reads `post` with the posts filter and that limit, and returns the documents newest first and serialized, or `Unsortable` |
| Endpoints.ListComments | main.py:129-133 | a missing `post_id` and a limit outside 1..500 (default 100) are both reported, in that order; otherwise reads `comment` with exactly `{post_id: post_id}` and returns the documents oldest first and serialized, or `Unsortable` |
| Endpoints.ListOffers | main.py:144-153 | rejects a limit outside 1..300 (default 100); otherwise reads `offer` with the offers filter and returns the documents newest first and serialized, or `Unsortable` |
| Schemas.ParseRole | schemas.py:18 | a role name is accepted exactly when it is `student`, `professor` or `company`, and it names the role it yields |
| Schemas.ParsePostType | schemas.py:19 | a post type is accepted exactly when it is `question`, `internship_request` or `discussion`, and it names the type it yields |
| Schemas.RoleNameRoundTrip | schemas.py:18 | every role's name parses back to that role |
| Schemas.PostTypeNameRoundTrip | schemas.py:19 | every post type's name parses back to that type |
| Schemas.TextField | schemas.py:27 | a required text field is accepted exactly when present as a string; a missing one is reported as missing, a present non-string as a type error |
| Schemas.OptionalTextField | schemas.py:30-33 | absent or null gives `None`; a string gives that string; anything else is a type error |
| Schemas.FlagField | schemas.py:34 | absent gives the default (`false` for `verified`); a boolean gives itself; anything else is a type error |
| Schemas.TextListField | schemas.py:45 | absent gives the empty list; a list of strings gives those strings in the same order; anything else is a type error |
| Schemas.RoleField | schemas.py:29 | accepted exactly when present as one of the three role names; a missing field is reported as missing and any other present value as not allowed |
| Schemas.PostTypeField | schemas.py:42 | accepted exactly when present as one of the three post type names; a missing field is reported as missing and any other present value as not allowed |
| Schemas.EmailField | schemas.py:28 | accepted exactly when present as text the email check accepts, and then kept in its normalised form; a missing field is reported as missing, a non-string as a type error, text the check refuses as a bad email |
| Schemas.UserErrors | schemas.py:22-34 | no error exactly when every declared `User` field is acceptable; the error of each unacceptable field is in the list |
| Schemas.UserErrorsBlameFailing | schemas.py:22-34 | every reported error names a declared `User` field that is not acceptable, so an acceptable field is never blamed |
| Schemas.ValidateUser | schemas.py:22-34 | accepted exactly when every declared field is acceptable; a rejection reports exactly the record's field errors (so each offending field is named); an accepted user carries the given name, role and normalised email, and the supplied `college`, `department`, `company_name`, `headline` and `verified`; `verified` defaults to false and the four optional fields default to absent |
| Schemas.PostErrors | schemas.py:37-46 | no error exactly when every declared `Post` field is acceptable; the error of each unacceptable field is in the list |
| Schemas.PostErrorsBlameFailing | schemas.py:37-46 | every reported error names a declared `Post` field that is not acceptable, so an acceptable field is never blamed |
| Schemas.ValidatePost | schemas.py:37-46 | accepted exactly when every declared field is acceptable; a rejection reports exactly the record's field errors (so each offending field is named); an accepted post carries the given type, title, content and author; `tags` defaults to empty and otherwise keeps the given order |
| Schemas.CommentErrors | schemas.py:49-57 | no error exactly when every declared `Comment` field is acceptable; the error of each unacceptable field is in the list |
| Schemas.CommentErrorsBlameFailing | schemas.py:49-57 | every reported error names a declared `Comment` field that is not acceptable, so an acceptable field is never blamed |
| Schemas.ValidateComment | schemas.py:49-57 | accepted exactly when every declared field is acceptable; a rejection reports exactly the record's field errors (so each offending field is named); an accepted comment carries the given post id, content and author, and the supplied `parent_id`, which defaults to absent |
| Schemas.OfferErrors | schemas.py:60-70 | no error exactly when every declared `Offer` field is acceptable; the error of each unacceptable field is in the list |
| Schemas.OfferErrorsBlameFailing | schemas.py:60-70 | every reported error names a declared `Offer` field that is not acceptable, so an acceptable field is never blamed |
| Schemas.ValidateOffer | schemas.py:60-70 | accepted exactly when every declared field is acceptable; a rejection reports exactly the record's field errors (so each offending field is named); an accepted offer carries the given title, description and author, and the supplied `location`, `stipend` and `post_id`, which default to absent |
| Schemas.UserMissingRequired | schemas.py:27-29 | a body without `name`, `email` or `role` is rejected with a missing-field error for it |
| Schemas.UserRoleNotAllowed | schemas.py:29 | a role string outside the three values (for example `admin`) is rejected with a not-allowed error on `role` |
| Schemas.PostMissingRequired | schemas.py:42-46 | a body without `type`, `title`, `content` or `created_by` is rejected with a missing-field error for it |
| Schemas.PostTypeNotAllowed | schemas.py:42 | a post type string outside the three values is rejected with a not-allowed error on `type` |
| Schemas.CommentMissingRequired | schemas.py:54-56 | a body without `post_id`, `content` or `created_by` is rejected with a missing-field error for it |
| Schemas.OfferMissingRequired | schemas.py:65-70 | a body without `title`, `description` or `created_by` is rejected with a missing-field error for it |
| Schemas.UserDocument | schemas.py:22-34 | the document form of a user handed to the store carries exactly the eight declared fields |
| Schemas.PostDocument | schemas.py:37-46 | the document form of a post handed to the store carries exactly the five declared fields |
| Schemas.CommentDocument | schemas.py:49-57 | the document form of a comment handed to the store carries exactly the four declared fields |
| Schemas.OfferDocument | schemas.py:60-70 | the document form of an offer handed to the store carries exactly the six declared fields |
| Schemas.UserRoundTrip | schemas.py:22-34 | a user's document validates back to the same user when its email is already normalised |
| Schemas.PostRoundTrip | schemas.py:37-46 | a post's document validates back to the same post, tags in order |
| Schemas.CommentRoundTrip | schemas.py:49-57 | a comment's document validates back to the same comment |
| Schemas.OfferRoundTrip | schemas.py:60-70 | an offer's document validates back to the same offer |

## Left out

- The store adapter (`create_document`, `get_documents`, the database driver) is not part of this model. A read is the parameter `get`, and what the store does with a filter (matching, including tag membership, and enforcing the limit) is not modelled.
- The create endpoints (main.py:78-81, 95-98, 123-126, 138-141) are modelled only through validation and the record documents. Insertion, identifier generation and any timestamps the store adapter adds are outside the model.
- The `/test` health check, the `/` endpoint, CORS setup, the application object and process startup are framework plumbing with no logic of the core.
- The order of keys inside a document is not modelled, because documents are maps. In the source, a renamed `id` lands at the end of the dictionary unless an `id` key was already there.
- JSON encoding of the response (datetimes, HTTP status codes) and the parsing of query strings into integers are done by the framework. Parameters arrive here already typed.
- Email syntax is checked by an external library. It is the parameter `check`, which returns the normalised address or `None`.
- Schemas.FlagField: pydantic's lax coercion of strings such as "true" or "yes" and of 0/1 to a boolean is not modelled; such values are rejected here.
- Schemas.UserErrors: the error functions state which errors a rejection holds and that each blames an unacceptable field. They do not state the order of the errors, or that each field is reported at most once.
- Ordering.Sortable: only `datetime` timestamps are treated as comparable. A collection whose `created_at` values are all strings or all numbers, which Python could sort, is treated as unsortable.
- Floating-point values are not part of the value model.
- The sort is modelled as an insertion sort, not Python's Timsort. `StableSortedUnique` shows that any stable sort gives the same result.
