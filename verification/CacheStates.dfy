/** Disk-cache states (CacheState in lmrs/model_cache.py), as far as the modelled code produces them. */
module CacheStates {
  datatype CacheState = NotCached | Caching | CachedOnDisk | CacheFailed
}
