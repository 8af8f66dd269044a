/** Client configuration and the row shapes of the `pets` and `vaccines` tables
    (src/lib/supabase.ts). */
module Supabase {

  datatype Option<+T> = None | Some(value: T)

  /** The URL the deployment template ships with; it means "not configured". */
  const PlaceholderUrl: string := "https://placeholder.supabase.co"
  /** The key handed to the client when no key is configured. */
  const PlaceholderKey: string := "placeholder-key"

  /** JavaScript truthiness of an environment value: unset and "" are falsy. */
  predicate Truthy(v: Option<string>)
  {
    v.Some? && v.value != ""
  }

  /** `isSupabaseConfigured()`: both values truthy and the URL is not the placeholder. */
  predicate IsConfigured(url: Option<string>, key: Option<string>)
  {
    Truthy(url) && Truthy(key) && url.value != PlaceholderUrl
  }

  /** The URL the client is created with: the raw value, or the placeholder when it is falsy. */
  function ClientUrl(url: Option<string>): (r: string)
    ensures r != ""
    ensures Truthy(url) ==> r == url.value
    ensures !Truthy(url) ==> r == PlaceholderUrl
  {
    if Truthy(url) then url.value else PlaceholderUrl
  }

  /** The key the client is created with: the raw value, or the placeholder key when it is falsy. */
  function ClientKey(key: Option<string>): (r: string)
    ensures r != ""
    ensures Truthy(key) ==> r == key.value
    ensures !Truthy(key) ==> r == PlaceholderKey
  {
    if Truthy(key) then key.value else PlaceholderKey
  }

  /** The predicate is true exactly when both values are set, non-empty, and the URL is
      not the placeholder; each missing or placeholder value on its own makes it false. */
  lemma ConfiguredExactly(url: Option<string>, key: Option<string>)
    ensures url.None? || url == Some("") ==> !IsConfigured(url, key)
    ensures key.None? || key == Some("") ==> !IsConfigured(url, key)
    ensures url == Some(PlaceholderUrl) ==> !IsConfigured(url, key)
    ensures IsConfigured(url, key) <==>
              (exists u, k :: url == Some(u) && key == Some(k) && u != "" && k != "" && u != PlaceholderUrl)
  {
    if IsConfigured(url, key) {
      assert url == Some(url.value) && key == Some(key.value);
    }
  }

  /** The fallbacks never turn an unconfigured environment into a configured one: when
      the predicate is false the client talks to the placeholder URL or uses the
      placeholder key, and when it is true the client uses the raw values. */
  lemma FallbacksNeverConfigure(url: Option<string>, key: Option<string>)
    ensures !IsConfigured(url, key) ==> ClientUrl(url) == PlaceholderUrl || ClientKey(key) == PlaceholderKey
    ensures IsConfigured(url, key) ==> ClientUrl(url) == url.value && ClientKey(key) == key.value
    ensures !IsConfigured(Some(ClientUrl(url)), Some(ClientKey(key))) ==> !IsConfigured(url, key)
  {
  }

  /** Why the predicate reads the raw values: with a real URL and no key, the values the
      client falls back to would pass it. */
  lemma FallbackKeyWouldPass()
    ensures !IsConfigured(Some("https://x.supabase.co"), None)
    ensures IsConfigured(Some(ClientUrl(Some("https://x.supabase.co"))), Some(ClientKey(None)))
  {
  }

  /** One row of the `pets` table; the nullable columns are `Option`s.  Ids are issued by
      the store; timestamps are milliseconds since the epoch. */
  datatype PetRow = PetRow(
    id: nat,
    userId: string,
    name: string,
    breed: string,
    age: Option<string>,
    weight: Option<string>,
    photoUrl: Option<string>,
    healthStatus: string,
    createdAt: int,
    updatedAt: int)

  /** One row of the `vaccines` table.  `date` and `nextDate` are `YYYY-MM-DD` columns,
      held here as UTC day numbers (days since 1970-01-01). */
  datatype VaccineRow = VaccineRow(
    id: nat,
    petId: nat,
    name: string,
    date: int,
    nextDate: int,
    notes: Option<string>,
    createdAt: int,
    updatedAt: int)
}
