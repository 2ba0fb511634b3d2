# Field-type rules and upload admission, modelled in Dafny

This project models two small parts of a content-management backend.

- **The field-type rule resolver** of the content-type builder (`types.js`).
  It takes a field descriptor and returns the validation rules its
  configuration must satisfy. The universal `type` rule is merged with a
  shape chosen by a closed dispatch on the descriptor's `type` tag.
  `TypeRules.Resolve` models the resolver. `TypeRules.Accepts` gives the
  returned rules an executable meaning, including the enumeration's
  cross-field rule: a default must be one of the sibling `enum` values.
- **The upload controller** of the upload plugin (`Upload.js`):
  - `upload` applies its gates in order: enablement, emptiness, then an
    all-or-nothing size limit. It annotates each buffered file in place
    with `related` and `path`, hands the batch to storage, and rewrites the
    stored records for the response: it prefixes local urls and flattens
    `related` lists.
  - `find` and `findOne` prefix urls of fetched records in place.
  - `getEnvironments` lists the configured environments.

Files:

- `js.dfy` (module `Js`): JavaScript values and truthiness.
- `type_rules.dfy` (module `TypeRules`): the resolver, pure.
- `upload_files.dfy` (module `UploadFiles`): the pure helpers of the controller.
- `upload_controller.dfy` (module `UploadController`): the actions that change
  state. It has a `FileRecord` class updated in place and a `Context` class
  holding the response status and body. It also has a `Services` class for
  the buffering and storage collaborators.

How the unseen code is modelled:

- The definitions from the builder's shared module `./common` (`VALID_TYPES`,
  `isValidName` and the shared validators) and yup's own e-mail and date
  checks are fields of the `TypeRules.Common` datatype. Every property is
  proved for all of them. `isValidName` is a custom yup test, which yup also runs on an
  absent value, so it receives the raw value and decides about absence
  itself.
- The buffering and storage services take their answer as a parameter and
  return fresh record objects that hold it. `Services` records each call in
  ghost state: `bufferCalls` counts buffering calls and `batches` logs every
  batch handed to storage. "Storage is never called" is stated as
  `svc.batches == old(svc.batches)`.
- The configured host (`strapi.config.url`) and the list of environment
  names are parameters.

Behaviour of the code as written that the model keeps:

- The size check sends one bad-request reply per oversized file, and each
  reply overwrites the previous body. The rejection therefore names the
  **last** oversized file (`UploadController.LastOversized`).
- A file of exactly `sizeLimit` bytes passes.
- The action learns that a size check failed by reading `ctx.status === 400`.
  If the status was already 400 on entry and the request passes all three
  gates, nothing is stored and the body is left as it was. `UploadController.Upload` states this case separately.
- `find` reads the first character of each url without first checking the
  url exists. A record whose url is undefined or null therefore throws and
  fails the action. `upload` checks first, so it does not throw.
- `findOne` adds the host in front of every url, absolute ones included.
  `find` adds it only to urls starting with `/`.
  `UploadFiles.FindAgreesWithFindOne` states when the two agree.

## Model

| member | source | states |
|---|---|---|
| `TypeRules.TagOf` | packages/strapi-plugin-content-type-builder/controllers/validation/types.js:16-17 | a value selects a named case only if it is exactly that case's label string; everything else, a missing or non-string tag included, goes to the default branch |
| `TypeRules.TagNameRoundTrip` | packages/strapi-plugin-content-type-builder/controllers/validation/types.js:22-121 | every case label selects its own case |
| `TypeRules.UnknownLabelIsOther` | packages/strapi-plugin-content-type-builder/controllers/validation/types.js:122-124 | a string that is none of the thirteen labels falls to the default branch |
| `TypeRules.Shape` | packages/strapi-plugin-content-type-builder/controllers/validation/types.js:16-125 | no shape has a `type` entry, so merging never overrides the universal rule |
| `TypeRules.NamedTagsRequired` | packages/strapi-plugin-content-type-builder/controllers/validation/types.js:22-125 | every named tag, and no other, carries the shared `required` validator in its shape |
| `TypeRules.AcceptsIsMerge` | packages/strapi-plugin-content-type-builder/controllers/validation/types.js:6-14 | a descriptor passes exactly when it passes the universal `type` rule and every rule of its tag's shape |
| `TypeRules.RuleAcceptsAbsentOrNull` | packages/strapi-plugin-content-type-builder/controllers/validation/types.js:8-121 | the required schemas (`type`, `enum`) refuse an absent value; the optional yup schemas accept it, the enumeration default included, which the source only reaches when `enum` is an array (see "## Left out"); `enumName` accepts it exactly when the identifier test does; yup's own schemas refuse null |
| `TypeRules.Resolve` | packages/strapi-plugin-content-type-builder/controllers/validation/types.js:6-14 | resolution is total over object descriptors; the result always holds the `type` rule; its keys are `type` plus the shape's keys, and every other key carries the shape's rule |
| `TypeRules.ResolveKeys` | packages/strapi-plugin-content-type-builder/controllers/validation/types.js:6-14 | the resolved key set is fixed by the descriptor's tag alone |
| `TypeRules.ResolveDependsOnlyOnType` | packages/strapi-plugin-content-type-builder/controllers/validation/types.js:6-17 | two descriptors with the same `type` value get identical rules (determinism) |
| `TypeRules.AcceptedTypeIsRegistered` | packages/strapi-plugin-content-type-builder/controllers/validation/types.js:8-11 | a descriptor that passes its rules has a non-empty string `type` that is in `VALID_TYPES` |
| `TypeRules.MissingTypeRejected` | packages/strapi-plugin-content-type-builder/controllers/validation/types.js:8-11 | a missing or non-string `type` fails the rules, whatever else the descriptor holds |
| `TypeRules.UnlistedTagOnlyType` | packages/strapi-plugin-content-type-builder/controllers/validation/types.js:122-124 | a tag outside the switch resolves to exactly the `type` rule |
| `TypeRules.MediaKeys` | packages/strapi-plugin-content-type-builder/controllers/validation/types.js:22-28 | `media` resolves to {type, multiple, required, unique}, with no default and a boolean `multiple` |
| `TypeRules.TextualTagsShareShape` | packages/strapi-plugin-content-type-builder/controllers/validation/types.js:33-43 | `string`, `text` and `richtext` have one shape, with keys {type, default, required, unique, min, max} |
| `TypeRules.JsonKeys` | packages/strapi-plugin-content-type-builder/controllers/validation/types.js:44-49 | `json` resolves to {type, required, unique} |
| `TypeRules.EnumerationKeys` | packages/strapi-plugin-content-type-builder/controllers/validation/types.js:50-64 | `enumeration` resolves to {type, enum, default, enumName, required, unique} |
| `TypeRules.ResolveEnumeration` | packages/strapi-plugin-content-type-builder/controllers/validation/types.js:50-64 | an `enumeration` descriptor resolves to exactly the rules type, enum, enum default, name, required and unique |
| `TypeRules.EnumerationAccepts` | packages/strapi-plugin-content-type-builder/controllers/validation/types.js:50-64 | an `enumeration` descriptor passes exactly when each of its six rules accepts the value under its attribute |
| `TypeRules.EnumerationValuesValid` | packages/strapi-plugin-content-type-builder/controllers/validation/types.js:52-60 | an accepted enumeration has a non-empty `enum` array whose every entry is a string or undefined and passes `isValidName`, and an `enumName` that is absent or a string and passes `isValidName` either way |
| `TypeRules.EnumerationDefaultIsMember` | packages/strapi-plugin-content-type-builder/controllers/validation/types.js:57-59 | an accepted enumeration's default is absent or a member of the same descriptor's `enum` |
| `TypeRules.EnumerationDefaultOutsideRejected` | packages/strapi-plugin-content-type-builder/controllers/validation/types.js:57-59 | a string default outside the sibling `enum` makes the descriptor fail (the converse direction) |
| `TypeRules.EnumerationExampleAccepted` | packages/strapi-plugin-content-type-builder/controllers/validation/types.js:50-64 | with `enum = ["a","b"]`, default "a" and no `enumName`, the descriptor passes when `enumeration` is a registered type, the shared validators pass and the identifier test accepts "a", "b" and an absent value |
| `TypeRules.EnumerationExampleRefused` | packages/strapi-plugin-content-type-builder/controllers/validation/types.js:57-59 | with `enum = ["a","b"]`, default "c" fails |
| `TypeRules.PasswordKeys` | packages/strapi-plugin-content-type-builder/controllers/validation/types.js:65-71 | `password` resolves to {type, required, min, max}: no default and no unique |
| `TypeRules.EmailKeys` | packages/strapi-plugin-content-type-builder/controllers/validation/types.js:72-80 | `email` resolves to {type, default, required, unique, min, max}, and its default must be an e-mail address |
| `TypeRules.ResolveInteger` | packages/strapi-plugin-content-type-builder/controllers/validation/types.js:81-88 | an `integer` descriptor resolves to exactly the rules type, required and unique plus whole-number default, min and max |
| `TypeRules.IntegerBoundsWhole` | packages/strapi-plugin-content-type-builder/controllers/validation/types.js:81-88 | in an accepted integer field, `default`, `min` and `max` are each absent or a whole number |
| `TypeRules.IntegerRejectsFraction` | packages/strapi-plugin-content-type-builder/controllers/validation/types.js:81-88 | an integer field with any fractional `min` fails |
| `TypeRules.ResolveString` | packages/strapi-plugin-content-type-builder/controllers/validation/types.js:33-43 | a `string` descriptor resolves to exactly the rules type, string default, required, unique, minimum length and maximum length |
| `TypeRules.StringDefaultLengthUnchecked` | packages/strapi-plugin-content-type-builder/controllers/validation/types.js:33-43 | a `string` field with a six-character default and `max = 2` passes whenever the shared validators do: nothing bounds `default` by `max` |
| `TypeRules.FloatDecimalShareShape` | packages/strapi-plugin-content-type-builder/controllers/validation/types.js:90-107 | `float` and `decimal` have one shape, with a numeric default, numeric min and max, and required and unique |
| `TypeRules.DateBooleanKeys` | packages/strapi-plugin-content-type-builder/controllers/validation/types.js:108-121 | `date` and `boolean` resolve to {type, default, required, unique}, with a date default and a boolean default respectively |
| `UploadController.Admit` | packages/strapi-plugin-upload/controllers/Upload.js:24-91 | rejected as disabled exactly when `enabled` is the boolean false; as empty exactly when that gate passes and there are no files; as too large exactly when both gates pass and some file exceeds the limit, naming the last such file; otherwise the batch has one annotated file per buffered file, in order, none over the limit |
| `UploadController.SizeAtLimitAdmitted` | packages/strapi-plugin-upload/controllers/Upload.js:51 | files whose sizes are at most the limit, an equal size included, are admitted |
| `UploadController.Exceeds` | packages/strapi-plugin-upload/controllers/Upload.js:51 | an absent limit rejects no file, and a size at or under the limit is never over it |
| `UploadController.LastOversizedIndex` | packages/strapi-plugin-upload/controllers/Upload.js:50-67 | -1 exactly when no file exceeds the limit; otherwise the position of an oversized file with no oversized file after it |
| `UploadController.LastOversized` | packages/strapi-plugin-upload/controllers/Upload.js:50-67 | none exactly when no file exceeds the limit; otherwise the name of an oversized file with no oversized file after it |
| `UploadController.Upload` | packages/strapi-plugin-upload/controllers/Upload.js:12-115 | on every rejection, storage is not called and the reply is a 400 with the reason; on disabled or empty, buffering is not called either; with an admitted batch, storage receives exactly that batch, and the reply is 200 with every stored record post-processed in order (unless the status was already 400 on entry, when nothing is stored and the body is untouched) |
| `UploadController.AnnotateAll` | packages/strapi-plugin-upload/controllers/Upload.js:50-91 | the reply names the last oversized file when there is one and is untouched otherwise; every file within the limit is annotated in place, every oversized one is left as it was |
| `UploadController.PassOne` | packages/strapi-plugin-upload/controllers/Upload.js:50-88 | an oversized file gets a bad-request reply naming it and is left as it was; any other file is annotated in place and the reply is untouched |
| `UploadController.StoreAndSend` | packages/strapi-plugin-upload/controllers/Upload.js:98-114 | storage receives exactly the current data of the buffered records, and the reply is 200 with every stored record post-processed in order |
| `UploadController.FileRecord.Annotate` | packages/strapi-plugin-upload/controllers/Upload.js:69-88 | the record's data becomes exactly the annotation of its previous data |
| `UploadController.Context.BadRequest` | packages/strapi-plugin-upload/controllers/Upload.js:26-31 | the status becomes 400 and the body the rejection |
| `UploadController.Context.Send` | packages/strapi-plugin-upload/controllers/Upload.js:101-114 | the status becomes 200 and the body the records |
| `UploadController.Services.Bufferize` | packages/strapi-plugin-upload/controllers/Upload.js:47-48 | one more buffering call is logged, no storage batch is added, and the result is distinct fresh records holding the collaborator's answer |
| `UploadController.Services.Upload` | packages/strapi-plugin-upload/controllers/Upload.js:98 | the batch handed over is appended to the storage log, and the result is distinct fresh records holding the collaborator's answer |
| `UploadController.RespondAll` | packages/strapi-plugin-upload/controllers/Upload.js:101-113 | afterwards the records hold exactly the post-processed stored data, in order |
| `UploadFiles.Annotate` | packages/strapi-plugin-upload/controllers/Upload.js:69-88 | `related` becomes the one-element list {refId, ref, source, field} exactly when refId, ref and field are all truthy, and is untouched otherwise; `path` is set exactly when the request path is truthy; name, size and url never change |
| `UploadFiles.AnnotateIdempotent` | packages/strapi-plugin-upload/controllers/Upload.js:69-88 | annotating a file twice gives the same result as annotating it once |
| `UploadFiles.PrefixLocal` | packages/strapi-plugin-upload/controllers/Upload.js:103-106 | a url starting with `/` gets the host in front; any other url, absent or empty ones included, is unchanged |
| `UploadFiles.FlattenItem` | packages/strapi-plugin-upload/controllers/Upload.js:109 | a relation object with a truthy `ref` becomes that `ref`, anything else is kept, and the result is never a relation object with a truthy `ref` |
| `UploadFiles.Flatten` | packages/strapi-plugin-upload/controllers/Upload.js:108-110 | the length is kept; each relation object with a truthy `ref` becomes that `ref`; every other entry is kept |
| `UploadFiles.FlattenIdempotent` | packages/strapi-plugin-upload/controllers/Upload.js:108-110 | flattening an already flattened list changes nothing |
| `UploadFiles.Respond` | packages/strapi-plugin-upload/controllers/Upload.js:102-113 | a record's url is rewritten as `PrefixLocal` says and an array `related` is flattened; name, size and path are kept, and a non-array `related` is kept as it is |
| `UploadFiles.Responses` | packages/strapi-plugin-upload/controllers/Upload.js:101-114 | one post-processed record per stored record, in order |
| `UploadFiles.RespondIdempotent` | packages/strapi-plugin-upload/controllers/Upload.js:102-113 | with an empty host or one not starting with `/`, post-processing a response a second time changes nothing |
| `UploadFiles.PrefixAlways` | packages/strapi-plugin-upload/controllers/Upload.js:185 | the result is the host followed by the old url's string form, in full: the host as prefix, the url's text as the rest |
| `UploadFiles.FindAgreesWithFindOne` | packages/strapi-plugin-upload/controllers/Upload.js:158-187 | for a url that exists, `find` and `findOne` rewrite it the same way exactly when it starts with `/` or the host is empty |
| `UploadController.Find` | packages/strapi-plugin-upload/controllers/Upload.js:158-174 | the action fails with a TypeError exactly when some fetched record's url is undefined or null; otherwise there is one record per fetched record, in order, with local urls prefixed and nothing else changed |
| `UploadController.FindOne` | packages/strapi-plugin-upload/controllers/Upload.js:176-187 | not found when fetch returns nothing; otherwise the record with the host in front of its url, whatever the url is |
| `UploadFiles.Environments` | packages/strapi-plugin-upload/controllers/Upload.js:117-129 | one entry per configured environment name, in order, active exactly when the name is the current environment |
| `UploadFiles.OneActiveEnvironment` | packages/strapi-plugin-upload/controllers/Upload.js:117-126 | with distinct names, some entry is active exactly when the current environment is configured, and at most one entry is active |

## Left out

- `search` and its query builders: they are database-specific (an SQL `LIKE` pattern against a Mongo regular expression), and the two backends match differently.
- `getSettings`, `updateSettings`, `count` and `destroy`: they pass requests through to the configuration store and the storage service, neither of which is part of this model. `upload` reads the provider configuration, and the model takes that as the `Config` parameter.
- The internals of the buffering and storage services (`bufferize`, `upload`, `fetch`, `fetchAll`, `remove`) are not part of this model. Their results are parameters, and an I/O failure thrown by them, which the action would propagate, is not modelled.
- Reply formatting is not modelled: the admin message identifiers, the plain-text messages and the not-found reply are reduced to the `Rejection` and `Fault` datatypes.
- Incoming files are a sequence, and "empty" means it has no elements. The framework's single-file object form is not modelled, nor a request with no file container, which reads as empty.
- `Config.sizeLimit` is either a whole number of bytes or absent. An absent limit makes the size comparison false for every file. Other stored values (strings, null) and their numeric conversions are not modelled. A missing provider configuration, on which the source would throw, is not modelled.
- Urls of records are absent, null or strings. Other JSON types are not modelled.
- `Js.JsValue` has no object variant. A descriptor attribute or request-body field holding an object cannot be expressed, and neither can a relation whose `ref` is itself an object with its own `ref`; a second flattening would read that inner `ref`. `UploadFiles.FlattenIdempotent` and `UploadFiles.RespondIdempotent` hold over this value fragment only.
- `UploadFiles.Flatten` keeps a `null` or `undefined` entry of a `related` list as it is. The source would throw when reading `ref` from such an entry.
- `TypeRules.RuleAccepts` checks types strictly. yup's casting (numbers to strings, numeric strings to numbers and the like) is not modelled, and numbers are reals, so NaN and the infinities are left out.
- `TypeRules.RuleAccepts`: the enumeration default's rule is built at validation time as `oneOf` of the sibling `enum`. When `enum` is not an array, `oneOf` throws a TypeError instead of reporting a validation error, even when `default` is absent. The model does not represent this throw. It accepts an absent default whatever `enum` holds. `Accepts` still refuses such a descriptor, because the `enum` rule fails.
- `TypeRules.Resolve`: the resolver reads `obj.type`, which throws when the descriptor itself is null or undefined. A `Descriptor` is always an object, so that throw is not modelled.
- `TypeRules.TextualTagsShareShape`: nothing in the `string`, `text` and `richtext` shape relates the length of `default` to `max`. `default` is a plain string, and the shared `maxLength` validator judges the `max` attribute itself. A default longer than `max` is therefore not refused by these rules (`TypeRules.StringDefaultLengthUnchecked`).
- `TypeRules.Accepts` applies only the resolved rules. Refusing keys a type does not know is left to whoever builds the object schema from these rules; that code is not part of this model.
- The shared definitions of the builder's `./common` module (`VALID_TYPES`, `isValidName` and the shared validators), and yup's own e-mail and date checks, are not part of this model. They are the fields of `TypeRules.Common`, and nothing is assumed about them.
- The GraphQL schema-builder composition: it only composes builder factories that are not part of this model.
- Asynchrony: each action is modelled as one sequential run.
