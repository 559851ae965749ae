/** The built-in catalogue the storefront falls back to when nothing was saved. */
module Seed {
  import opened Optionals
  import opened Types

  const Momo: MenuItem := MenuItem("4", "মোমো (চিকেন রেগুলার)", Some("চিকেন স্টাফড মোমো (রেগুলার)।"),
    Amount(100), None, "মোমো ও পাস্তা", None, None, None)

  const Half: MenuItemOption := MenuItemOption("হাফ", 30)
  const Full: MenuItemOption := MenuItemOption("ফুল", 50)

  const Nachos: MenuItem := MenuItem("8", "নাচোস", None,
    Display("৩০/৫০"), Some([Half, Full]), "স্ন্যাকস ও সাইডস", None, None, None)

  const InitialMenu: seq<MenuItem> := [
    MenuItem("1", "কম্বো-০১ (চুই হাঁস + রুটি)", Some("১ প্লেট চুই ঝালের হাঁসের মাংস (১:১) এবং ৩টি চালের আটার রুটি।"),
      Amount(150), None, "কম্বো অফার", None, Some(true), Some(true)),
    MenuItem("2", "কম্বো-০২ (থাই সুপ + অনথন)", Some("মাশরুম অথবা প্রন থাই সুপ (১:১) এবং ২ পিস অনথন।"),
      Amount(100), None, "কম্বো অফার", None, None, None),
    MenuItem("3", "কম্বো-০৩ (সুপ + অনথন + মোমো)", Some("থাই সুপ (১:১), ২ পিস অনথন এবং ২ পিস মোমো।"),
      Amount(150), None, "কম্বো অফার", None, None, None),
    Momo,
    MenuItem("6", "মোমো (হোয়াইট সস)", Some("ক্রিমি হোয়াইট সসে ডুবানো বিশেষ মোমো।"),
      Amount(130), None, "মোমো ও পাস্তা", None, None, Some(true)),
    Nachos,
    MenuItem("10", "চিকেন চিজ বল (৪ পিস)", Some("চিজ এবং চিকেন ভরা মচমচে বল।"),
      Amount(100), None, "স্ন্যাকস ও সাইডস", None, None, Some(true))
  ]

  const InitialCategories: seq<string> := ["কম্বো অফার", "মোমো ও পাস্তা", "স্ন্যাকস ও সাইডস", "পানীয়"]

  const InitialHeroImages: seq<string> := [
    "https://images.unsplash.com/photo-1544333346-64e4fe18274b?q=80&w=2000&auto=format&fit=crop",
    "https://images.unsplash.com/photo-1563245372-f21724e3856d?q=80&w=2000&auto=format&fit=crop",
    "https://images.unsplash.com/photo-1599487488170-d11ec9c172f0?q=80&w=2000&auto=format&fit=crop",
    "https://images.unsplash.com/photo-1626074353765-517a681e40be?q=80&w=2000&auto=format&fit=crop"
  ]
}
