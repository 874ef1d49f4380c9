# Polyaxon build context, modelled in Dafny

This project models the build context of a Polyaxon operation
(`polyaxon/schemas/ops/init/build_context.py`). A build context describes
where the container image for a run comes from: a base image, a Dockerfile,
or both. It also holds build steps, a language environment, environment
variables, a security context and an optional commit.

The model covers three things:

- **The presence rule** (`BuildContext.ValidateBuildContextImage`). A build
  context with neither an image nor a Dockerfile is rejected with the fixed
  message "Invalid Build context, an image or path to dockerfile is
  required.". `None` and the empty string both count as missing, as Python
  truthiness has it. Otherwise the external image check decides the outcome.
  That check is a parameter of type `ImageValidator`, since its code is not
  part of this model.
- **Construction** (`BuildContext.BuildContextConfig`). Validation runs
  before anything is stored. The constructor requires validation to pass and
  stores the eight fields unchanged. `Create` models construction as a caller
  sees it: either the validation error and no object, or a new object.
- **The `image_tag` property** (`BuildContextConfig.ImageTag`). The image
  reference is split on `:`, using `Strings.Split`, a model of Python's
  `str.split` that keeps empty segments. The tag is chosen by the number of
  segments.

Modules: `Wrappers` (Option, Result), `Strings` (split, join, count),
`BuildContext` (the core).

## Model

| member | source | states |
|---|---|---|
| `BuildContext.ValidateBuildContextImage` | polyaxon/schemas/ops/init/build_context.py:11-14 | With neither image nor Dockerfile present (None or empty), the outcome is the presence error with its fixed message. Otherwise the outcome is the image check's verdict on the image, including its own error. |
| `BuildContext.MissingImageSourceExactly` | polyaxon/schemas/ops/init/build_context.py:11-13 | The presence error is raised for every possible image check exactly when both image and Dockerfile are missing. So the presence rule is decided before, and independently of, the image check. |
| `BuildContext.BuildContextConfig.constructor` | polyaxon/schemas/ops/init/build_context.py:69-77 | Can be called only when validation passes. The built config has a non-empty image or Dockerfile, and each of the eight stored fields equals the argument passed. |
| `BuildContext.BuildContextConfig.Create` | polyaxon/schemas/ops/init/build_context.py:58-77 | Construction fails exactly when validation fails, with validation's error and no object. Only image and Dockerfile decide this. On success it returns a fresh object with a non-empty image or Dockerfile, whose eight fields are the arguments, untransformed. |
| `BuildContext.BuildContextConfig.ImageTag` | polyaxon/schemas/ops/init/build_context.py:79-89 | The tag is None exactly when the image is None or empty, or has three or more colons. Any tag other than "latest" contains no colon and is a suffix of the image. It reads only constant fields, so it changes nothing. |
| `BuildContext.UntaggedImageIsLatest` | polyaxon/schemas/ops/init/build_context.py:83-85 | A non-empty image without a colon has the tag "latest". |
| `BuildContext.TagAfterSingleColon` | polyaxon/schemas/ops/init/build_context.py:86-87 | For `name:tag` with one colon, the tag is the text after the colon. If that text contains `/`, the tag is "latest" instead. |
| `BuildContext.TagAfterSecondColon` | polyaxon/schemas/ops/init/build_context.py:88-89 | For `host:path:tag` with two colons, the tag is the text after the second colon, with no `/` check. |
| `BuildContext.VersionTagExample` | polyaxon/schemas/ops/init/build_context.py:86-87 | `ubuntu:18.04` has the tag `18.04`. |
| `BuildContext.RegistryPortExample` | polyaxon/schemas/ops/init/build_context.py:86-87 | `myregistry.io:5000/ubuntu` has the tag `latest`: its colon separates a registry port. |
| `BuildContext.RegistryPortAndTagExample` | polyaxon/schemas/ops/init/build_context.py:88-89 | `localhost:5000/ubuntu:18.04` has the tag `18.04`. |
| `Strings.Split` | polyaxon/schemas/ops/init/build_context.py:83 | `str.split(":")` has one more segment than the string has separators, and no segment contains the separator. |
| `Strings.JoinSplit` | polyaxon/schemas/ops/init/build_context.py:83 | Joining the segments with the separator gives back the original string. |
| `Strings.SplitJoin` | polyaxon/schemas/ops/init/build_context.py:83 | Splitting the join of one or more separator-free parts gives back exactly those parts. |

## Left out

- The marshmallow schema `BuildContextSchema` and its `validates_schema` hook (lines 17-41): deserialisation plumbing. The hook only calls the same validation function that is modelled here.
- The body of `validate_image`: `polyaxon/schemas/fields/docker_image.py` is not part of this model. It is the `ImageValidator` parameter. It is called on the image even when the image is None, because the source calls it unconditionally.
- Reference-or-object values (`RefOrObject`, `polyaxon/schemas/fields/ref_or_obj.py`, not part of this model). `image`, `build_steps`, `lang_env`, `env_vars` and `security_context` are treated as literal values.
- The field-level check that each `env_vars` entry has exactly two elements (line 25). It belongs to deserialisation. The constructor stores `env_vars` as given, so the model stores a sequence of sequences.
- `BaseConfig` serialisation and the `IDENTIFIER`, `SCHEMA` and `REDUCED_ATTRIBUTES` metadata (lines 44-56): framework metadata with no behaviour in this file.
- Python's dynamic typing: the fields hold values of the declared field types only. Untyped values (`fields.Raw`, `fields.Dict`) are the `Value` datatype, with floats as exact reals (no floating-point rounding).
- The constructor and `Create` take the external image check as their first, required parameter; the eight fields follow with the default None, as in `__init__` (lines 58-67).
- BuildContextConfig fields are `const`. In Python they are ordinary attributes, but nothing in this file reassigns them after `__init__`.
- An image with four or more `:`-separated segments falls off the end of the `image_tag` property (after line 89), which then returns None; the model returns None too.
