/**
 * The class autoloader that the plugin's main file registers with
 * `spl_autoload_register`: a class name with the `EFF_` prefix is mapped to
 * a file under `includes/` (or `includes/admin/` for `EFF_Admin_*`), and the
 * file is required when it exists.
 *
 * The plugin's class files declare `EEFORM_*` classes, which this loader
 * never maps (see `EeformClassesAreNotAutoloaded`).
 */
module Autoloader {
  import opened Php

  const ClassPrefix: string := "EFF_"
  const AdminPrefix: string := "Admin_"

  /** `EFF_PLUGIN_DIR . 'includes/'`. */
  function BaseDir(pluginDir: string): string {
    pluginDir + "includes/"
  }

  /** `str_replace('_', '-', strtolower($relative_class))`. */
  function FileSlug(relative: string): (slug: string)
    ensures |slug| == |relative|
    ensures forall i :: 0 <= i < |slug| ==> slug[i] != '_' && !('A' <= slug[i] <= 'Z')
    ensures forall i :: 0 <= i < |slug| ==>
              slug[i] == (if relative[i] == '_' then '-' else LowerChar(relative[i]))
  {
    ReplaceChar(StrToLower(relative), '_', '-')
  }

  /**
   * The file the autoloader computes for a class name, or `None` when the
   * name does not start with `EFF_` (the closure returns early).
   */
  function ClassFile(pluginDir: string, className: string): (file: Option<string>)
    ensures file.Some? <==> StartsWith(className, ClassPrefix)
    ensures file.Some? ==> StartsWith(file.value, BaseDir(pluginDir)) && EndsWith(file.value, ".php")
  {
    if !StartsWith(className, ClassPrefix) then
      None
    else
      var relative := className[|ClassPrefix|..];
      var dir := if StartsWith(relative, AdminPrefix) then "admin/class-" else "class-";
      var file := BaseDir(pluginDir) + dir + FileSlug(relative) + ".php";
      assert file[..|BaseDir(pluginDir)|] == BaseDir(pluginDir);
      assert file[|file| - 4..] == ".php";
      Some(file)
  }

  /** One call of the autoloader: the file it requires, if any. */
  function Autoload(pluginDir: string, className: string, fileExists: string -> bool): (required: Option<string>)
    ensures required.Some? ==> ClassFile(pluginDir, className) == required && fileExists(required.value)
    ensures ClassFile(pluginDir, className).Some? && fileExists(ClassFile(pluginDir, className).value) ==> required.Some?
  {
    match ClassFile(pluginDir, className)
    case Some(file) => if fileExists(file) then Some(file) else None
    case None => None
  }

  /**
   * What the autoloader requires: nothing for a name without the prefix;
   * otherwise the mapped file, exactly when that file exists.
   */
  lemma AutoloadRequiresOnlyExistingMappedFiles(pluginDir: string, className: string, fileExists: string -> bool)
    ensures !StartsWith(className, ClassPrefix) ==> Autoload(pluginDir, className, fileExists) == None
    ensures Autoload(pluginDir, className, fileExists).Some? ==>
              var file := Autoload(pluginDir, className, fileExists).value;
              ClassFile(pluginDir, className) == Some(file) && fileExists(file)
    ensures StartsWith(className, ClassPrefix) && fileExists(ClassFile(pluginDir, className).value) ==>
              Autoload(pluginDir, className, fileExists) == ClassFile(pluginDir, className)
  {
  }

  /**
   * The path is the base directory, `admin/` exactly when the relative name
   * (the class name without its first four characters) starts with
   * `Admin_`, then `class-`, the slug of the relative name and `.php`.
   */
  lemma ClassFileLayout(pluginDir: string, className: string)
    requires StartsWith(className, ClassPrefix)
    ensures var relative := className[4..];
            ClassFile(pluginDir, className) ==
              Some(pluginDir + "includes/" + (if StartsWith(relative, "Admin_") then "admin/" else "")
                   + "class-" + FileSlug(relative) + ".php")
  {
    var relative := className[4..];
    if StartsWith(relative, "Admin_") {
      assert pluginDir + "includes/" + "admin/class-" == pluginDir + "includes/" + "admin/" + "class-";
    } else {
      assert pluginDir + "includes/" + "" == pluginDir + "includes/";
    }
  }

  lemma LowerCharIdempotent(c: char)
    ensures LowerChar(LowerChar(c)) == LowerChar(c)
  {
  }

  /**
   * The slug ignores letter case: relative names that differ only in case
   * give the same file name.
   */
  lemma {:induction false} FileSlugIgnoresCase(relative: string)
    ensures FileSlug(StrToLower(relative)) == FileSlug(relative)
  {
    var a, b := FileSlug(StrToLower(relative)), FileSlug(relative);
    forall i | 0 <= i < |relative|
      ensures a[i] == b[i]
    {
      LowerCharIdempotent(relative[i]);
    }
  }

  /**
   * The slug can be read back: for a relative name without '-', replacing
   * '-' by '_' in the slug gives the lower-cased relative name.
   */
  lemma {:induction false} FileSlugRoundTrip(relative: string)
    requires '-' !in relative
    ensures ReplaceChar(FileSlug(relative), '-', '_') == StrToLower(relative)
  {
    var a, b := ReplaceChar(FileSlug(relative), '-', '_'), StrToLower(relative);
    forall i | 0 <= i < |relative|
      ensures a[i] == b[i]
    {
      assert relative[i] != '-';
    }
  }

  /** The classes the plugin's files declare carry the `EEFORM_` prefix, which the loader rejects. */
  lemma EeformClassesAreNotAutoloaded(pluginDir: string, className: string, fileExists: string -> bool)
    requires StartsWith(className, "EEFORM_")
    ensures ClassFile(pluginDir, className) == None
    ensures Autoload(pluginDir, className, fileExists) == None
  {
    assert className[1] == 'E';
  }

  /** A slug computed character by character, for the concrete names below. */
  lemma SlugOf(relative: string, slug: string)
    requires |relative| == |slug|
    requires forall i :: 0 <= i < |relative| ==>
               slug[i] == (if relative[i] == '_' then '-' else LowerChar(relative[i]))
    ensures FileSlug(relative) == slug
  {
  }

  /**
   * The admin page class named by the plugin's bootstrap maps into
   * `includes/admin/`, to the file `class-admin-page.php`.
   */
  lemma AdminPageClassFile(pluginDir: string)
    ensures ClassFile(pluginDir, "EFF_Admin_Page") ==
              Some(pluginDir + "includes/" + "admin/" + "class-" + FileSlug("Admin_Page") + ".php")
    ensures FileSlug("Admin_Page") == "admin-page"
  {
    var cls := "EFF_Admin_Page";
    assert cls[4..] == "Admin_Page" && StartsWith(cls, ClassPrefix);
    assert StartsWith("Admin_Page", "Admin_") by { assert "Admin_Page"[..6] == "Admin_"; }
    ClassFileLayout(pluginDir, cls);
    AdminPageSlug();
  }

  lemma AdminPageSlug()
    ensures FileSlug("Admin_Page") == "admin-page"
  {
    SlugOf("Admin_Page", "admin-page");
  }

  /** The database class named by the bootstrap maps to `includes/class-database.php`. */
  lemma DatabaseClassFile(pluginDir: string)
    ensures ClassFile(pluginDir, "EFF_Database") ==
              Some(pluginDir + "includes/" + "" + "class-" + FileSlug("Database") + ".php")
    ensures FileSlug("Database") == "database"
  {
    var cls := "EFF_Database";
    assert cls[4..] == "Database" && StartsWith(cls, ClassPrefix);
    assert !StartsWith("Database", "Admin_") by { assert "Database"[0] != "Admin_"[0]; }
    ClassFileLayout(pluginDir, cls);
    DatabaseSlug();
  }

  lemma DatabaseSlug()
    ensures FileSlug("Database") == "database"
  {
    SlugOf("Database", "database");
  }

  /**
   * The `Admin_` test is case-sensitive while the slug is lower-cased, so a
   * differently cased admin class name maps outside `admin/`, to the same
   * file name.
   */
  lemma AdminTestIsCaseSensitive(pluginDir: string)
    ensures ClassFile(pluginDir, "EFF_admin_Page") ==
              Some(pluginDir + "includes/" + "" + "class-" + FileSlug("admin_Page") + ".php")
    ensures FileSlug("admin_Page") == "admin-page"
  {
    var cls := "EFF_admin_Page";
    assert cls[4..] == "admin_Page" && StartsWith(cls, ClassPrefix);
    assert !StartsWith("admin_Page", "Admin_") by { assert "admin_Page"[0] != "Admin_"[0]; }
    ClassFileLayout(pluginDir, cls);
    LowerAdminPageSlug();
  }

  lemma LowerAdminPageSlug()
    ensures FileSlug("admin_Page") == "admin-page"
  {
    SlugOf("admin_Page", "admin-page");
  }
}
