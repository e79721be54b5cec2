/**
 * The record produced for one decoded track. Its `cofKey` field is always the
 * Camelot notation of its `key`: the record starts out `Unknown`/"Unknown"
 * and the only update sets both fields together.
 */
module SongMetas {
  import opened SongKeys

  datatype SongMeta = SongMeta(path: string, artist: string, title: string, key: SongKey, cofKey: string)

  /** The record invariant. */
  predicate Valid(m: SongMeta)
  {
    m.cofKey == ToCircleOfFifths(m.key)
  }

  /** The record a decode session starts from. */
  function NewSongMeta(path: string): (m: SongMeta)
    ensures Valid(m)
    ensures m.path == path && m.artist == "" && m.title == "" && m.key == Unknown
  {
    SongMeta(path, "", "", Unknown, "Unknown")
  }

  /** Overwrites the key and, with it, its notation; nothing else changes. */
  function SetKey(m: SongMeta, k: SongKey): (m': SongMeta)
    ensures Valid(m') && m'.key == k
    ensures m'.path == m.path && m'.artist == m.artist && m'.title == m.title
  {
    m.(key := k, cofKey := ToCircleOfFifths(k))
  }

  /** In a valid record the notation alone determines the key. */
  lemma {:induction false} NotationDeterminesKey(m: SongMeta, m': SongMeta)
    requires Valid(m) && Valid(m') && m.cofKey == m'.cofKey
    ensures m.key == m'.key
  {
    ToCircleOfFifthsInjective(m.key, m'.key);
  }
}
