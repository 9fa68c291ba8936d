# Transfer Family identity provider — Dafny model

This project models the custom identity provider that authenticates SFTP users
of an AWS Transfer Family server (`lambda/auth.py`). On each connection attempt
the transfer service passes a username and a password. An empty password means
public-key authentication is requested. The provider reads the user's
credential record from Secrets Manager under the name `SECRET_PREFIX + username`.
It answers with an empty response (deny) or with the session attributes:

- the role,
- the home-directory type `"LOGICAL"`,
- a one-entry mapping of `/` to the user's home directory,
- and, on the key path only, the stored public keys for the service to match
  the presented key against.

Everything lives in module `Auth` (`auth.dfy`), written as datatypes, functions
and lemmas, like the source's single stateless function.

- `SecretStore` stands for Secrets Manager as one call sees it: stored secrets by
  name, or an error raised for the call.
- `FetchSecret` is `_fetch_secret`. A missing name gives `NotFound`, and so does
  a secret whose JSON is `null`, which parses to None. Any other error,
  including an unparseable secret string, gives `Fault` carrying its message.
- `Decide` is the decision tree of `handler` after the lookup. It returns the
  response and the log lines the call prints, reduced to their `action` tag with
  reason or auth type.
- `Handler` composes the two.
- `Admits`, `HasNoCredential` and `IsSessionFor` restate the rules of the
  provider's module docstring (`lambda/auth.py`, lines 15-18) and of the
  transfer service's response format on their own terms. The contracts tie the decision procedure to them.

## Model

| member | source | states |
|---|---|---|
| Auth.AttemptType | lambda/auth.py:81 | the attempt is logged as `password` exactly when a non-empty password was presented, otherwise as `public_key` |
| Auth.SecretName | lambda/auth.py:37 | a secret's name is the configured prefix followed by the username, with nothing in between |
| Auth.FetchSecret | lambda/auth.py:31-42 | an error raised by the backend call is a fault carrying its message; a name absent from the store, or a secret whose JSON is `null`, is not-found; an unparseable secret is a fault carrying the parse error's message, not a not-found; otherwise the record is the one stored under prefix + username |
| Auth.AuthResponse | lambda/auth.py:45-53 | the success response carries the record's role, the `LOGICAL` type and the single mapping of `/` to the record's home directory, and no public keys |
| Auth.Decide | lambda/auth.py:86-117 | exactly two log lines, the attempt and one terminal line whose tag matches the branch; a fault is denied with `auth_error` and its message; not-found is denied with `user_not_found` whatever the password; success exactly when a non-empty presented password equals the stored one, or no password was presented and the stored key list is non-empty; otherwise denied with `invalid_password` or `no_public_keys_configured`; every success is a session for the record; keys only on the key path, and then the stored list unchanged |
| Auth.Handler | lambda/auth.py:56-117 | a success only ever comes from the parsed record stored under prefix + the request's own username, and that record admits what was presented; a backend error is denied with `auth_error`; a missing or `null` secret is denied with `user_not_found` |
| Auth.FailClosed | lambda/auth.py:96-117 | a record with no non-empty password and no non-empty key list is denied for every request |
| Auth.PasswordIgnoresStoredKeys | lambda/auth.py:96-104 | with a password presented, the answer and the log lines do not depend on the stored keys, so a password success never carries keys |
| Auth.KeyPathIgnoresStoredPassword | lambda/auth.py:106-117 | with no password presented, the answer and the log lines do not depend on the stored password |
| Auth.BothConfiguredEitherWay | lambda/auth.py:15-18 | a user with both a password and keys can be admitted by password (session without keys) and by key (session with the stored keys), depending only on the request |
| Auth.SecretNameInjective | lambda/auth.py:37 | under one prefix, two usernames that name the same secret are the same username |
| Auth.OtherUsersSecretsIrrelevant | lambda/auth.py:37-42 | storing, replacing or corrupting any other user's secret leaves the response and log lines for a request unchanged |

## Left out

- The Secrets Manager client and its network call: they are the `SecretStore`
  value, whose `failure` field stands for every error the call can raise other
  than a missing secret.
- Reading `SECRET_PREFIX` from the environment: the prefix is a parameter.
- The printed JSON log lines: only each line's `action` with its reason, message
  or auth type is modelled. The username field of each log line is left out,
  and so are protocol, server id and source IP, which are only logged.
- The exact `json.dumps` text of `HomeDirectoryDetails`: it is modelled as a
  one-element list of (entry, target) pairs. The escaping belongs to the JSON
  library.
- Secrets whose JSON is a list, number, string or boolean: the source raises
  `AttributeError` from `secret.get` (lines 98 and 109), outside its `try`, so
  the call fails with no response. The model's parsed secret is a record or
  `null` only.
- Records missing `role_arn` or `home_directory`: the source raises `KeyError`
  only on a success path, after `auth_success` has been logged (lines 103-104
  and 114-115). The model's record always has both.
- Record fields holding values of the wrong JSON type: the source raises
  nothing for these. A non-string `password` is compared by truthiness and
  `!=`, so it never equals a presented string and is denied with
  `invalid_password`. A truthy non-list `public_keys` (a string, an object) is
  returned as `PublicKeys` unchanged. A non-string `role_arn` or
  `home_directory` is copied into the response. The model's record has typed
  fields, so these responses are not modelled.
- Event fields holding JSON `null`: the model treats a field as either absent or
  a string. The source would format a null username as the text `None` in the
  secret name.
- Idempotence: every operation is a function, so equal inputs give equal
  outputs by construction. No lemma states it.
