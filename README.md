# Namecheap ACME operator: certificate assembly and plugin environment

This project models the two pieces of the Namecheap ACME operator charm that hold logic of their own. Everything else runs inside the external `lego` ACME client or belongs to the charm framework.

1. **Certificate-bundle assembly.** The ACME client library's certificate-creation handler finishes by reading the issued bundle from `<certs_path><subject>.crt` in the workload container. It splits the bundle on `"\n\n"` with Python's `str.split` into a list `certs`. The split cuts at each leftmost, non-overlapping occurrence, so `"\n\n\n"` is cut only once. It then publishes three values on the `certificates` relation: the first segment as the certificate, the last segment as the CA, and the segments in reverse order as the chain. The CSR and the relation id are passed along unchanged. No PEM parsing or other validation happens.
2. **Plugin environment.** The charm's `_plugin_config` builds a string-keyed map for the Namecheap DNS plugin from optional charm options. It does this through seven conditional updates. The API user and the API key are both written under `NAMECHEAP_API_KEY`, so the key overwrites the user. Four settings are passed through `str(...)`, so an unset option becomes `"None"` and still produces an entry.

Modules:

- `Wrappers` (`wrappers.dfy`): `Option`.
- `TextSplit` (`text_split.dfy`): Python's `str.split(sep)` as a leftmost, non-overlapping scan, and `sep.join`, with the round trips between them.
- `AcmeClient` (`acme_client.dfy`): the certificate path, the loop that collects the segments, the selection of leaf, CA and chain, and what the relation receives.
- `NamecheapCharm` (`charm.dfy`): configuration values, Python truthiness, `str(...)`, the accessors, `_plugin_config` as an imperative method, and a declarative per-variable description of its result.

Configuration options are modelled as a map from option name to a `Text`, `Number` or `Flag` value. An unset option has no entry, which matches `config.get` returning `None`. The container's files are a map from path to content. If the path is missing, the read fails and nothing is published.

Two points of the code are worth stating directly:
- ACME servers send the end-entity certificate first (section 7.4.2 of RFC 8555). The code takes the first segment as the certificate and the last as the CA. It publishes the chain reversed, CA first. `Reversed` models that.
- The code does no PEM validation (RFC 7468). It only splits on `"\n\n"`, so every input yields at least one segment. An empty or separator-only bundle produces empty certificates.

## Model

| member | source | states |
|---|---|---|
| `TextSplit.Split` | lib/charms/acme_client_operator/v0/acme_client.py:143 | Splitting always yields at least one segment, including for empty input, so `certs[0]` and `certs[-1]` exist. The first segment is a prefix of the input. |
| `TextSplit.JoinSplit` | lib/charms/acme_client_operator/v0/acme_client.py:143-144 | Joining the segments with the separator reproduces the bundle exactly. |
| `TextSplit.SplitPartsAvoidSeparator` | lib/charms/acme_client_operator/v0/acme_client.py:143 | No segment contains the separator. |
| `TextSplit.SplitWithoutSeparator` | lib/charms/acme_client_operator/v0/acme_client.py:143 | A text without the separator splits into exactly one segment: itself. |
| `TextSplit.SplitAfterSegment` | lib/charms/acme_client_operator/v0/acme_client.py:143 | A segment followed by the separator, with no occurrence starting inside it, is cut off exactly there, and the rest is split on its own. |
| `TextSplit.SplitJoin` | lib/charms/acme_client_operator/v0/acme_client.py:143 | Splitting the join of separable pieces gives back exactly those pieces, in order. |
| `AcmeClient.CertificateFile` | lib/charms/acme_client_operator/v0/acme_client.py:141 | The path read is `certs_path`, then the subject, then `.crt`. It starts with `certs_path` and ends with `.crt`. |
| `AcmeClient.Reversed` | lib/charms/acme_client_operator/v0/acme_client.py:149 | `list(reversed(s))` has the same length, and element `i` is `s[len-1-i]`. |
| `AcmeClient.ReversedTwice` | lib/charms/acme_client_operator/v0/acme_client.py:149 | Reversing twice gives back the original list. |
| `AcmeClient.CollectCertificates` | lib/charms/acme_client_operator/v0/acme_client.py:142-144 | The append loop leaves `certs` equal to the split of the bundle on `"\n\n"`. |
| `AcmeClient.PublishIssuedCertificate` | lib/charms/acme_client_operator/v0/acme_client.py:141-151 | Something is published exactly when the certificate file exists. If so, it is the leaf/CA/chain selection of that file's segments, with the CSR and relation id passed through. |
| `AcmeClient.Publish` | lib/charms/acme_client_operator/v0/acme_client.py:145-151 | The certificate is the first segment and the CA the last. The chain has the same length and runs from the CA to the leaf. With one segment, certificate and CA are the same. The CSR and relation id are unchanged. |
| `AcmeClient.ChainRecoversBundle` | lib/charms/acme_client_operator/v0/acme_client.py:143-149 | Reversing the published chain and joining it with blank lines reproduces the bundle read. |
| `AcmeClient.PublishedHaveNoBlankLine` | lib/charms/acme_client_operator/v0/acme_client.py:143-149 | The certificate, the CA and every chain entry contain no `"\n\n"`. |
| `AcmeClient.LeafFirstBundle` | lib/charms/acme_client_operator/v0/acme_client.py:141-149 | A bundle of separable PEM blocks joined by blank lines is split back into exactly those blocks. The leaf is the first block, the CA the last, and the chain is the blocks reversed. |
| `AcmeClient.TrailingBlankLineGivesEmptyCa` | lib/charms/acme_client_operator/v0/acme_client.py:143-149 | A bundle that ends with a blank line after a cleanly ending block has an extra empty final segment. That empty segment becomes the CA and `chain[0]`. |
| `AcmeClient.OverlappingTrailingNewline` | lib/charms/acme_client_operator/v0/acme_client.py:143-148 | `"\n\n\n"` splits into `["", "\n"]`, so a trailing separator does not always leave an empty CA. |
| `AcmeClient.EmptyBundle` | lib/charms/acme_client_operator/v0/acme_client.py:142-148 | An empty bundle yields one empty segment. Certificate and CA are both `""` and the chain is `[""]`. |
| `NamecheapCharm.PyStrEmpty` | src/charm.py:33-51 | `str(...)` of an option is empty only for the empty string. `str(None)` is `"None"`. |
| `NamecheapCharm.DecimalRoundTrip` | src/charm.py:33-51 | The decimal text that `str` produces for a non-negative integer reads back as that integer. |
| `NamecheapCharm.NatToDecimal` | src/charm.py:33-51 | The decimal text `str` gives a non-negative integer is non-empty, all digits and, for a positive number, without a leading zero. |
| `NamecheapCharm.EntryByVariable` | src/charm.py:23-56 | Each variable's entry is given by the charm's accessors. `_namecheap_api_key`, `_namecheap_api_user` and `_namecheap_sandbox` return `config.get` of their option. The TTL, propagation-timeout, polling-interval and HTTP-timeout accessors return `str(config.get(...))`. |
| `NamecheapCharm.EmailAndPlugin` | src/charm.py:82-90 | `_plugin` is always `"namecheap"`. `_email` is the `email` option unchanged and depends on no other option. |
| `NamecheapCharm.PluginConfig` | src/charm.py:58-80 | The seven conditional updates of an empty map produce exactly `PluginEnvironment`. That is the variable-by-variable description in which each entry equals the corresponding accessor's value. |
| `NamecheapCharm.EnvironmentKeys` | src/charm.py:61-80 | The result only has keys among the six Namecheap variables. `NAMECHEAP_API_USER` is never produced. |
| `NamecheapCharm.ApiKeyPrecedence` | src/charm.py:62-65 | `NAMECHEAP_API_KEY` is present exactly when the API key or the API user is truthy. It holds the key if the key is truthy, otherwise the user. |
| `NamecheapCharm.ApiUserShadowed` | src/charm.py:62-65 | When the API key is truthy, changing or removing the API user does not change the environment. |
| `NamecheapCharm.SandboxPassedThrough` | src/charm.py:68-69 | `NAMECHEAP_SANDBOX` is present exactly when the sandbox option is truthy, and carries the option's value unchanged. |
| `NamecheapCharm.StringifiedSetting` | src/charm.py:66-79 | TTL, propagation timeout, polling interval and HTTP timeout are each present unless their option is the empty string. The value is `str(...)` of the option, `"None"` when unset. |
| `NamecheapCharm.ApiUserLost` | src/charm.py:62-63 | For every configuration with a truthy API user, `NAMECHEAP_API_USER` is absent from the environment as written. `NAMECHEAP_API_KEY` is present, and it holds the user when the key is not truthy. The corrected environment holds the user under `NAMECHEAP_API_USER`. |
| `NamecheapCharm.ApiUserLostExample` | src/charm.py:62-63 | A single example: with user `"alice"` and key `"secret"`, the environment as written holds only the key, and the corrected one holds the user too. |
| `NamecheapCharm.IntendedCredentials` | src/charm.py:62-65 | In the corrected environment, the API user and the API key each appear under their own variable exactly when truthy, with their own values. The other five variables are present exactly when they are in the environment as written, with the same values. |

## Left out

- Framework wiring is not modelled: event observation, the pebble-ready handler, the leader check, `can_connect` with `event.defer()`, and unit status changes. These are framework side effects with no computation.
- CSR parsing and common-name extraction are not modelled; they are calls into the `cryptography` library. The subject is an input string.
- Pushing the CSR, running `lego` with its 300-second timeout and handling `ExecError` are not modelled; they are process and file I/O. The ACME order, challenge, DNS publication and polling state machine all run inside `lego` and are not part of this code.
- `set_relation_certificate` itself is not modelled. Only the values passed to it (`RelationCertificate`) are.
- The abstract `cmd`, `certs_path` and `plugin_config` properties of the library are not modelled. The charm defines `_plugin_config`, which nothing in the code connects to `plugin_config`, so the certificate path is taken as an input and the environment is not passed anywhere.
- Floating-point charm options are not modelled; `ConfigValue` covers string, integer and boolean options.
- The email validation and blocked-status messages asserted by the unit tests are not modelled. Neither `src/charm.py` nor the `acme_client` library implements them.
- `TextSplit.Split` requires a non-empty separator. Python raises `ValueError` for an empty one, and the only separator used is `"\n\n"`.

## Findings

| source | as written | input that shows it | evidently intended | confidence | as-written member | corrected member |
|---|---|---|---|---|---|---|
| src/charm.py:62-63 | The `namecheap-api-user` option is stored under `NAMECHEAP_API_KEY`, so `NAMECHEAP_API_USER` never appears in the map `_plugin_config` builds. | `namecheap-api-user = "alice"`, `namecheap-api-key = "secret"`: the environment holds `NAMECHEAP_API_KEY = "secret"` and no API user. With only the user set, `"alice"` is stored as `NAMECHEAP_API_KEY` in the map `_plugin_config` builds. The map would reach the plugin only once wired to `plugin_config`, which this code does not do. | Store the API user under `NAMECHEAP_API_USER`, which the Namecheap plugin reads alongside `NAMECHEAP_API_KEY`. | high; not executed | `NamecheapCharm.ApiUserLost` | `NamecheapCharm.IntendedCredentials` |
