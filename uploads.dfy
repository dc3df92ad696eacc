/** The directory `uploads/products/` that image files are written to and removed
    from. Paths are relative to the application root, as `product_images.image_path`
    stores them. */
module Uploads {

  const UploadDir := "uploads/products/"

  /** `basename($path)`: what follows the last '/'. */
  function Basename(path: string): (r: string)
    ensures '/' !in r
    ensures |r| <= |path|
  {
    if path == [] then []
    else if path[|path| - 1] == '/' then []
    else Basename(path[..|path| - 1]) + [path[|path| - 1]]
  }

  /** Behind a directory, a name without '/' is its own base name. */
  lemma {:induction false} BasenameAfterDirectory(dir: string, name: string)
    requires dir != [] && dir[|dir| - 1] == '/' && '/' !in name
    ensures Basename(dir + name) == name
  {
    var p := dir + name;
    if name == [] {
      assert p == dir;
    } else {
      var init := name[..|name| - 1];
      assert p[..|p| - 1] == dir + init;
      assert p[|p| - 1] == name[|name| - 1];
      assert '/' !in init by {
        forall i | 0 <= i < |init| ensures init[i] != '/' { assert init[i] == name[i]; }
      }
      BasenameAfterDirectory(dir, init);
      assert init + [name[|name| - 1]] == name;
    }
  }

  /** The base name of a stored upload path is the generated file name. */
  lemma BasenameOfUploadPath(filename: string)
    requires '/' !in filename
    ensures Basename(UploadDir + filename) == filename
  {
    BasenameAfterDirectory(UploadDir, filename);
  }

  /** The file system as far as the uploads directory goes: the set of files in it. */
  class FileStore {
    var files: set<string>

    constructor (initial: set<string>)
      ensures files == initial
    {
      files := initial;
    }

    /** `move_uploaded_file` onto `path` that succeeded. */
    method Put(path: string)
      modifies this
      ensures files == old(files) + {path}
    {
      files := files + {path};
    }

    /** `if (file_exists($path)) unlink($path);`. */
    method RemoveIfExists(path: string)
      modifies this
      ensures files == old(files) - {path}
    {
      if path in files {
        files := files - {path};
      }
    }
  }
}
