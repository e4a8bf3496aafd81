/** The file system as the script sees it: each existing path maps to the
 *  text that opening it in UTF-8 text mode yields. */
module FileStore {
  type Store = map<string, string>
}
