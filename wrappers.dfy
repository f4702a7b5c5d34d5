/** Optional values: a query that may find nothing (Scrapy's `.get()` returning None). */
module Wrappers {
  datatype Option<+T> = None | Some(value: T)
}
