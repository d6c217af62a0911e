/** What the three views of the cache in a.yanin/waxy have in common. */
module CacheEntries {

  type Url = string

  datatype EntryState = Complete | Partial | Invalid
}
