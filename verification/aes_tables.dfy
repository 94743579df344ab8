// The eight lookup tables of aes_prng.c and the proof that each entry is what
// FIPS 197 prescribes: an S-box byte, or an S-box byte multiplied by a MixColumns
// coefficient, in the lane the round function reads it from.
module AesTables {
  import opened Fips197

  // crypto_ft_tab[0]
  function Ft0(x: int): bv32
  {
    if x < 0x10 then match x {
      case 0x00 => 0xa56363c6 case 0x01 => 0x847c7cf8 case 0x02 => 0x997777ee case 0x03 => 0x8d7b7bf6
      case 0x04 => 0x0df2f2ff case 0x05 => 0xbd6b6bd6 case 0x06 => 0xb16f6fde case 0x07 => 0x54c5c591
      case 0x08 => 0x50303060 case 0x09 => 0x03010102 case 0x0a => 0xa96767ce case 0x0b => 0x7d2b2b56
      case 0x0c => 0x19fefee7 case 0x0d => 0x62d7d7b5 case 0x0e => 0xe6abab4d case _ => 0x9a7676ec
    } else if x < 0x20 then match x {
      case 0x10 => 0x45caca8f case 0x11 => 0x9d82821f case 0x12 => 0x40c9c989 case 0x13 => 0x877d7dfa
      case 0x14 => 0x15fafaef case 0x15 => 0xeb5959b2 case 0x16 => 0xc947478e case 0x17 => 0x0bf0f0fb
      case 0x18 => 0xecadad41 case 0x19 => 0x67d4d4b3 case 0x1a => 0xfda2a25f case 0x1b => 0xeaafaf45
      case 0x1c => 0xbf9c9c23 case 0x1d => 0xf7a4a453 case 0x1e => 0x967272e4 case _ => 0x5bc0c09b
    } else if x < 0x30 then match x {
      case 0x20 => 0xc2b7b775 case 0x21 => 0x1cfdfde1 case 0x22 => 0xae93933d case 0x23 => 0x6a26264c
      case 0x24 => 0x5a36366c case 0x25 => 0x413f3f7e case 0x26 => 0x02f7f7f5 case 0x27 => 0x4fcccc83
      case 0x28 => 0x5c343468 case 0x29 => 0xf4a5a551 case 0x2a => 0x34e5e5d1 case 0x2b => 0x08f1f1f9
      case 0x2c => 0x937171e2 case 0x2d => 0x73d8d8ab case 0x2e => 0x53313162 case _ => 0x3f15152a
    } else if x < 0x40 then match x {
      case 0x30 => 0x0c040408 case 0x31 => 0x52c7c795 case 0x32 => 0x65232346 case 0x33 => 0x5ec3c39d
      case 0x34 => 0x28181830 case 0x35 => 0xa1969637 case 0x36 => 0x0f05050a case 0x37 => 0xb59a9a2f
      case 0x38 => 0x0907070e case 0x39 => 0x36121224 case 0x3a => 0x9b80801b case 0x3b => 0x3de2e2df
      case 0x3c => 0x26ebebcd case 0x3d => 0x6927274e case 0x3e => 0xcdb2b27f case _ => 0x9f7575ea
    } else if x < 0x50 then match x {
      case 0x40 => 0x1b090912 case 0x41 => 0x9e83831d case 0x42 => 0x742c2c58 case 0x43 => 0x2e1a1a34
      case 0x44 => 0x2d1b1b36 case 0x45 => 0xb26e6edc case 0x46 => 0xee5a5ab4 case 0x47 => 0xfba0a05b
      case 0x48 => 0xf65252a4 case 0x49 => 0x4d3b3b76 case 0x4a => 0x61d6d6b7 case 0x4b => 0xceb3b37d
      case 0x4c => 0x7b292952 case 0x4d => 0x3ee3e3dd case 0x4e => 0x712f2f5e case _ => 0x97848413
    } else if x < 0x60 then match x {
      case 0x50 => 0xf55353a6 case 0x51 => 0x68d1d1b9 case 0x52 => 0x00000000 case 0x53 => 0x2cededc1
      case 0x54 => 0x60202040 case 0x55 => 0x1ffcfce3 case 0x56 => 0xc8b1b179 case 0x57 => 0xed5b5bb6
      case 0x58 => 0xbe6a6ad4 case 0x59 => 0x46cbcb8d case 0x5a => 0xd9bebe67 case 0x5b => 0x4b393972
      case 0x5c => 0xde4a4a94 case 0x5d => 0xd44c4c98 case 0x5e => 0xe85858b0 case _ => 0x4acfcf85
    } else if x < 0x70 then match x {
      case 0x60 => 0x6bd0d0bb case 0x61 => 0x2aefefc5 case 0x62 => 0xe5aaaa4f case 0x63 => 0x16fbfbed
      case 0x64 => 0xc5434386 case 0x65 => 0xd74d4d9a case 0x66 => 0x55333366 case 0x67 => 0x94858511
      case 0x68 => 0xcf45458a case 0x69 => 0x10f9f9e9 case 0x6a => 0x06020204 case 0x6b => 0x817f7ffe
      case 0x6c => 0xf05050a0 case 0x6d => 0x443c3c78 case 0x6e => 0xba9f9f25 case _ => 0xe3a8a84b
    } else if x < 0x80 then match x {
      case 0x70 => 0xf35151a2 case 0x71 => 0xfea3a35d case 0x72 => 0xc0404080 case 0x73 => 0x8a8f8f05
      case 0x74 => 0xad92923f case 0x75 => 0xbc9d9d21 case 0x76 => 0x48383870 case 0x77 => 0x04f5f5f1
      case 0x78 => 0xdfbcbc63 case 0x79 => 0xc1b6b677 case 0x7a => 0x75dadaaf case 0x7b => 0x63212142
      case 0x7c => 0x30101020 case 0x7d => 0x1affffe5 case 0x7e => 0x0ef3f3fd case _ => 0x6dd2d2bf
    } else if x < 0x90 then match x {
      case 0x80 => 0x4ccdcd81 case 0x81 => 0x140c0c18 case 0x82 => 0x35131326 case 0x83 => 0x2fececc3
      case 0x84 => 0xe15f5fbe case 0x85 => 0xa2979735 case 0x86 => 0xcc444488 case 0x87 => 0x3917172e
      case 0x88 => 0x57c4c493 case 0x89 => 0xf2a7a755 case 0x8a => 0x827e7efc case 0x8b => 0x473d3d7a
      case 0x8c => 0xac6464c8 case 0x8d => 0xe75d5dba case 0x8e => 0x2b191932 case _ => 0x957373e6
    } else if x < 0xa0 then match x {
      case 0x90 => 0xa06060c0 case 0x91 => 0x98818119 case 0x92 => 0xd14f4f9e case 0x93 => 0x7fdcdca3
      case 0x94 => 0x66222244 case 0x95 => 0x7e2a2a54 case 0x96 => 0xab90903b case 0x97 => 0x8388880b
      case 0x98 => 0xca46468c case 0x99 => 0x29eeeec7 case 0x9a => 0xd3b8b86b case 0x9b => 0x3c141428
      case 0x9c => 0x79dedea7 case 0x9d => 0xe25e5ebc case 0x9e => 0x1d0b0b16 case _ => 0x76dbdbad
    } else if x < 0xb0 then match x {
      case 0xa0 => 0x3be0e0db case 0xa1 => 0x56323264 case 0xa2 => 0x4e3a3a74 case 0xa3 => 0x1e0a0a14
      case 0xa4 => 0xdb494992 case 0xa5 => 0x0a06060c case 0xa6 => 0x6c242448 case 0xa7 => 0xe45c5cb8
      case 0xa8 => 0x5dc2c29f case 0xa9 => 0x6ed3d3bd case 0xaa => 0xefacac43 case 0xab => 0xa66262c4
      case 0xac => 0xa8919139 case 0xad => 0xa4959531 case 0xae => 0x37e4e4d3 case _ => 0x8b7979f2
    } else if x < 0xc0 then match x {
      case 0xb0 => 0x32e7e7d5 case 0xb1 => 0x43c8c88b case 0xb2 => 0x5937376e case 0xb3 => 0xb76d6dda
      case 0xb4 => 0x8c8d8d01 case 0xb5 => 0x64d5d5b1 case 0xb6 => 0xd24e4e9c case 0xb7 => 0xe0a9a949
      case 0xb8 => 0xb46c6cd8 case 0xb9 => 0xfa5656ac case 0xba => 0x07f4f4f3 case 0xbb => 0x25eaeacf
      case 0xbc => 0xaf6565ca case 0xbd => 0x8e7a7af4 case 0xbe => 0xe9aeae47 case _ => 0x18080810
    } else if x < 0xd0 then match x {
      case 0xc0 => 0xd5baba6f case 0xc1 => 0x887878f0 case 0xc2 => 0x6f25254a case 0xc3 => 0x722e2e5c
      case 0xc4 => 0x241c1c38 case 0xc5 => 0xf1a6a657 case 0xc6 => 0xc7b4b473 case 0xc7 => 0x51c6c697
      case 0xc8 => 0x23e8e8cb case 0xc9 => 0x7cdddda1 case 0xca => 0x9c7474e8 case 0xcb => 0x211f1f3e
      case 0xcc => 0xdd4b4b96 case 0xcd => 0xdcbdbd61 case 0xce => 0x868b8b0d case _ => 0x858a8a0f
    } else if x < 0xe0 then match x {
      case 0xd0 => 0x907070e0 case 0xd1 => 0x423e3e7c case 0xd2 => 0xc4b5b571 case 0xd3 => 0xaa6666cc
      case 0xd4 => 0xd8484890 case 0xd5 => 0x05030306 case 0xd6 => 0x01f6f6f7 case 0xd7 => 0x120e0e1c
      case 0xd8 => 0xa36161c2 case 0xd9 => 0x5f35356a case 0xda => 0xf95757ae case 0xdb => 0xd0b9b969
      case 0xdc => 0x91868617 case 0xdd => 0x58c1c199 case 0xde => 0x271d1d3a case _ => 0xb99e9e27
    } else if x < 0xf0 then match x {
      case 0xe0 => 0x38e1e1d9 case 0xe1 => 0x13f8f8eb case 0xe2 => 0xb398982b case 0xe3 => 0x33111122
      case 0xe4 => 0xbb6969d2 case 0xe5 => 0x70d9d9a9 case 0xe6 => 0x898e8e07 case 0xe7 => 0xa7949433
      case 0xe8 => 0xb69b9b2d case 0xe9 => 0x221e1e3c case 0xea => 0x92878715 case 0xeb => 0x20e9e9c9
      case 0xec => 0x49cece87 case 0xed => 0xff5555aa case 0xee => 0x78282850 case _ => 0x7adfdfa5
    } else match x {
      case 0xf0 => 0x8f8c8c03 case 0xf1 => 0xf8a1a159 case 0xf2 => 0x80898909 case 0xf3 => 0x170d0d1a
      case 0xf4 => 0xdabfbf65 case 0xf5 => 0x31e6e6d7 case 0xf6 => 0xc6424284 case 0xf7 => 0xb86868d0
      case 0xf8 => 0xc3414182 case 0xf9 => 0xb0999929 case 0xfa => 0x772d2d5a case 0xfb => 0x110f0f1e
      case 0xfc => 0xcbb0b07b case 0xfd => 0xfc5454a8 case 0xfe => 0xd6bbbb6d case _ => 0x3a16162c
    }
  }

  // crypto_ft_tab[1]
  function Ft1(x: int): bv32
  {
    if x < 0x10 then match x {
      case 0x00 => 0x6363c6a5 case 0x01 => 0x7c7cf884 case 0x02 => 0x7777ee99 case 0x03 => 0x7b7bf68d
      case 0x04 => 0xf2f2ff0d case 0x05 => 0x6b6bd6bd case 0x06 => 0x6f6fdeb1 case 0x07 => 0xc5c59154
      case 0x08 => 0x30306050 case 0x09 => 0x01010203 case 0x0a => 0x6767cea9 case 0x0b => 0x2b2b567d
      case 0x0c => 0xfefee719 case 0x0d => 0xd7d7b562 case 0x0e => 0xabab4de6 case _ => 0x7676ec9a
    } else if x < 0x20 then match x {
      case 0x10 => 0xcaca8f45 case 0x11 => 0x82821f9d case 0x12 => 0xc9c98940 case 0x13 => 0x7d7dfa87
      case 0x14 => 0xfafaef15 case 0x15 => 0x5959b2eb case 0x16 => 0x47478ec9 case 0x17 => 0xf0f0fb0b
      case 0x18 => 0xadad41ec case 0x19 => 0xd4d4b367 case 0x1a => 0xa2a25ffd case 0x1b => 0xafaf45ea
      case 0x1c => 0x9c9c23bf case 0x1d => 0xa4a453f7 case 0x1e => 0x7272e496 case _ => 0xc0c09b5b
    } else if x < 0x30 then match x {
      case 0x20 => 0xb7b775c2 case 0x21 => 0xfdfde11c case 0x22 => 0x93933dae case 0x23 => 0x26264c6a
      case 0x24 => 0x36366c5a case 0x25 => 0x3f3f7e41 case 0x26 => 0xf7f7f502 case 0x27 => 0xcccc834f
      case 0x28 => 0x3434685c case 0x29 => 0xa5a551f4 case 0x2a => 0xe5e5d134 case 0x2b => 0xf1f1f908
      case 0x2c => 0x7171e293 case 0x2d => 0xd8d8ab73 case 0x2e => 0x31316253 case _ => 0x15152a3f
    } else if x < 0x40 then match x {
      case 0x30 => 0x0404080c case 0x31 => 0xc7c79552 case 0x32 => 0x23234665 case 0x33 => 0xc3c39d5e
      case 0x34 => 0x18183028 case 0x35 => 0x969637a1 case 0x36 => 0x05050a0f case 0x37 => 0x9a9a2fb5
      case 0x38 => 0x07070e09 case 0x39 => 0x12122436 case 0x3a => 0x80801b9b case 0x3b => 0xe2e2df3d
      case 0x3c => 0xebebcd26 case 0x3d => 0x27274e69 case 0x3e => 0xb2b27fcd case _ => 0x7575ea9f
    } else if x < 0x50 then match x {
      case 0x40 => 0x0909121b case 0x41 => 0x83831d9e case 0x42 => 0x2c2c5874 case 0x43 => 0x1a1a342e
      case 0x44 => 0x1b1b362d case 0x45 => 0x6e6edcb2 case 0x46 => 0x5a5ab4ee case 0x47 => 0xa0a05bfb
      case 0x48 => 0x5252a4f6 case 0x49 => 0x3b3b764d case 0x4a => 0xd6d6b761 case 0x4b => 0xb3b37dce
      case 0x4c => 0x2929527b case 0x4d => 0xe3e3dd3e case 0x4e => 0x2f2f5e71 case _ => 0x84841397
    } else if x < 0x60 then match x {
      case 0x50 => 0x5353a6f5 case 0x51 => 0xd1d1b968 case 0x52 => 0x00000000 case 0x53 => 0xededc12c
      case 0x54 => 0x20204060 case 0x55 => 0xfcfce31f case 0x56 => 0xb1b179c8 case 0x57 => 0x5b5bb6ed
      case 0x58 => 0x6a6ad4be case 0x59 => 0xcbcb8d46 case 0x5a => 0xbebe67d9 case 0x5b => 0x3939724b
      case 0x5c => 0x4a4a94de case 0x5d => 0x4c4c98d4 case 0x5e => 0x5858b0e8 case _ => 0xcfcf854a
    } else if x < 0x70 then match x {
      case 0x60 => 0xd0d0bb6b case 0x61 => 0xefefc52a case 0x62 => 0xaaaa4fe5 case 0x63 => 0xfbfbed16
      case 0x64 => 0x434386c5 case 0x65 => 0x4d4d9ad7 case 0x66 => 0x33336655 case 0x67 => 0x85851194
      case 0x68 => 0x45458acf case 0x69 => 0xf9f9e910 case 0x6a => 0x02020406 case 0x6b => 0x7f7ffe81
      case 0x6c => 0x5050a0f0 case 0x6d => 0x3c3c7844 case 0x6e => 0x9f9f25ba case _ => 0xa8a84be3
    } else if x < 0x80 then match x {
      case 0x70 => 0x5151a2f3 case 0x71 => 0xa3a35dfe case 0x72 => 0x404080c0 case 0x73 => 0x8f8f058a
      case 0x74 => 0x92923fad case 0x75 => 0x9d9d21bc case 0x76 => 0x38387048 case 0x77 => 0xf5f5f104
      case 0x78 => 0xbcbc63df case 0x79 => 0xb6b677c1 case 0x7a => 0xdadaaf75 case 0x7b => 0x21214263
      case 0x7c => 0x10102030 case 0x7d => 0xffffe51a case 0x7e => 0xf3f3fd0e case _ => 0xd2d2bf6d
    } else if x < 0x90 then match x {
      case 0x80 => 0xcdcd814c case 0x81 => 0x0c0c1814 case 0x82 => 0x13132635 case 0x83 => 0xececc32f
      case 0x84 => 0x5f5fbee1 case 0x85 => 0x979735a2 case 0x86 => 0x444488cc case 0x87 => 0x17172e39
      case 0x88 => 0xc4c49357 case 0x89 => 0xa7a755f2 case 0x8a => 0x7e7efc82 case 0x8b => 0x3d3d7a47
      case 0x8c => 0x6464c8ac case 0x8d => 0x5d5dbae7 case 0x8e => 0x1919322b case _ => 0x7373e695
    } else if x < 0xa0 then match x {
      case 0x90 => 0x6060c0a0 case 0x91 => 0x81811998 case 0x92 => 0x4f4f9ed1 case 0x93 => 0xdcdca37f
      case 0x94 => 0x22224466 case 0x95 => 0x2a2a547e case 0x96 => 0x90903bab case 0x97 => 0x88880b83
      case 0x98 => 0x46468cca case 0x99 => 0xeeeec729 case 0x9a => 0xb8b86bd3 case 0x9b => 0x1414283c
      case 0x9c => 0xdedea779 case 0x9d => 0x5e5ebce2 case 0x9e => 0x0b0b161d case _ => 0xdbdbad76
    } else if x < 0xb0 then match x {
      case 0xa0 => 0xe0e0db3b case 0xa1 => 0x32326456 case 0xa2 => 0x3a3a744e case 0xa3 => 0x0a0a141e
      case 0xa4 => 0x494992db case 0xa5 => 0x06060c0a case 0xa6 => 0x2424486c case 0xa7 => 0x5c5cb8e4
      case 0xa8 => 0xc2c29f5d case 0xa9 => 0xd3d3bd6e case 0xaa => 0xacac43ef case 0xab => 0x6262c4a6
      case 0xac => 0x919139a8 case 0xad => 0x959531a4 case 0xae => 0xe4e4d337 case _ => 0x7979f28b
    } else if x < 0xc0 then match x {
      case 0xb0 => 0xe7e7d532 case 0xb1 => 0xc8c88b43 case 0xb2 => 0x37376e59 case 0xb3 => 0x6d6ddab7
      case 0xb4 => 0x8d8d018c case 0xb5 => 0xd5d5b164 case 0xb6 => 0x4e4e9cd2 case 0xb7 => 0xa9a949e0
      case 0xb8 => 0x6c6cd8b4 case 0xb9 => 0x5656acfa case 0xba => 0xf4f4f307 case 0xbb => 0xeaeacf25
      case 0xbc => 0x6565caaf case 0xbd => 0x7a7af48e case 0xbe => 0xaeae47e9 case _ => 0x08081018
    } else if x < 0xd0 then match x {
      case 0xc0 => 0xbaba6fd5 case 0xc1 => 0x7878f088 case 0xc2 => 0x25254a6f case 0xc3 => 0x2e2e5c72
      case 0xc4 => 0x1c1c3824 case 0xc5 => 0xa6a657f1 case 0xc6 => 0xb4b473c7 case 0xc7 => 0xc6c69751
      case 0xc8 => 0xe8e8cb23 case 0xc9 => 0xdddda17c case 0xca => 0x7474e89c case 0xcb => 0x1f1f3e21
      case 0xcc => 0x4b4b96dd case 0xcd => 0xbdbd61dc case 0xce => 0x8b8b0d86 case _ => 0x8a8a0f85
    } else if x < 0xe0 then match x {
      case 0xd0 => 0x7070e090 case 0xd1 => 0x3e3e7c42 case 0xd2 => 0xb5b571c4 case 0xd3 => 0x6666ccaa
      case 0xd4 => 0x484890d8 case 0xd5 => 0x03030605 case 0xd6 => 0xf6f6f701 case 0xd7 => 0x0e0e1c12
      case 0xd8 => 0x6161c2a3 case 0xd9 => 0x35356a5f case 0xda => 0x5757aef9 case 0xdb => 0xb9b969d0
      case 0xdc => 0x86861791 case 0xdd => 0xc1c19958 case 0xde => 0x1d1d3a27 case _ => 0x9e9e27b9
    } else if x < 0xf0 then match x {
      case 0xe0 => 0xe1e1d938 case 0xe1 => 0xf8f8eb13 case 0xe2 => 0x98982bb3 case 0xe3 => 0x11112233
      case 0xe4 => 0x6969d2bb case 0xe5 => 0xd9d9a970 case 0xe6 => 0x8e8e0789 case 0xe7 => 0x949433a7
      case 0xe8 => 0x9b9b2db6 case 0xe9 => 0x1e1e3c22 case 0xea => 0x87871592 case 0xeb => 0xe9e9c920
      case 0xec => 0xcece8749 case 0xed => 0x5555aaff case 0xee => 0x28285078 case _ => 0xdfdfa57a
    } else match x {
      case 0xf0 => 0x8c8c038f case 0xf1 => 0xa1a159f8 case 0xf2 => 0x89890980 case 0xf3 => 0x0d0d1a17
      case 0xf4 => 0xbfbf65da case 0xf5 => 0xe6e6d731 case 0xf6 => 0x424284c6 case 0xf7 => 0x6868d0b8
      case 0xf8 => 0x414182c3 case 0xf9 => 0x999929b0 case 0xfa => 0x2d2d5a77 case 0xfb => 0x0f0f1e11
      case 0xfc => 0xb0b07bcb case 0xfd => 0x5454a8fc case 0xfe => 0xbbbb6dd6 case _ => 0x16162c3a
    }
  }

  // crypto_ft_tab[2]
  function Ft2(x: int): bv32
  {
    if x < 0x10 then match x {
      case 0x00 => 0x63c6a563 case 0x01 => 0x7cf8847c case 0x02 => 0x77ee9977 case 0x03 => 0x7bf68d7b
      case 0x04 => 0xf2ff0df2 case 0x05 => 0x6bd6bd6b case 0x06 => 0x6fdeb16f case 0x07 => 0xc59154c5
      case 0x08 => 0x30605030 case 0x09 => 0x01020301 case 0x0a => 0x67cea967 case 0x0b => 0x2b567d2b
      case 0x0c => 0xfee719fe case 0x0d => 0xd7b562d7 case 0x0e => 0xab4de6ab case _ => 0x76ec9a76
    } else if x < 0x20 then match x {
      case 0x10 => 0xca8f45ca case 0x11 => 0x821f9d82 case 0x12 => 0xc98940c9 case 0x13 => 0x7dfa877d
      case 0x14 => 0xfaef15fa case 0x15 => 0x59b2eb59 case 0x16 => 0x478ec947 case 0x17 => 0xf0fb0bf0
      case 0x18 => 0xad41ecad case 0x19 => 0xd4b367d4 case 0x1a => 0xa25ffda2 case 0x1b => 0xaf45eaaf
      case 0x1c => 0x9c23bf9c case 0x1d => 0xa453f7a4 case 0x1e => 0x72e49672 case _ => 0xc09b5bc0
    } else if x < 0x30 then match x {
      case 0x20 => 0xb775c2b7 case 0x21 => 0xfde11cfd case 0x22 => 0x933dae93 case 0x23 => 0x264c6a26
      case 0x24 => 0x366c5a36 case 0x25 => 0x3f7e413f case 0x26 => 0xf7f502f7 case 0x27 => 0xcc834fcc
      case 0x28 => 0x34685c34 case 0x29 => 0xa551f4a5 case 0x2a => 0xe5d134e5 case 0x2b => 0xf1f908f1
      case 0x2c => 0x71e29371 case 0x2d => 0xd8ab73d8 case 0x2e => 0x31625331 case _ => 0x152a3f15
    } else if x < 0x40 then match x {
      case 0x30 => 0x04080c04 case 0x31 => 0xc79552c7 case 0x32 => 0x23466523 case 0x33 => 0xc39d5ec3
      case 0x34 => 0x18302818 case 0x35 => 0x9637a196 case 0x36 => 0x050a0f05 case 0x37 => 0x9a2fb59a
      case 0x38 => 0x070e0907 case 0x39 => 0x12243612 case 0x3a => 0x801b9b80 case 0x3b => 0xe2df3de2
      case 0x3c => 0xebcd26eb case 0x3d => 0x274e6927 case 0x3e => 0xb27fcdb2 case _ => 0x75ea9f75
    } else if x < 0x50 then match x {
      case 0x40 => 0x09121b09 case 0x41 => 0x831d9e83 case 0x42 => 0x2c58742c case 0x43 => 0x1a342e1a
      case 0x44 => 0x1b362d1b case 0x45 => 0x6edcb26e case 0x46 => 0x5ab4ee5a case 0x47 => 0xa05bfba0
      case 0x48 => 0x52a4f652 case 0x49 => 0x3b764d3b case 0x4a => 0xd6b761d6 case 0x4b => 0xb37dceb3
      case 0x4c => 0x29527b29 case 0x4d => 0xe3dd3ee3 case 0x4e => 0x2f5e712f case _ => 0x84139784
    } else if x < 0x60 then match x {
      case 0x50 => 0x53a6f553 case 0x51 => 0xd1b968d1 case 0x52 => 0x00000000 case 0x53 => 0xedc12ced
      case 0x54 => 0x20406020 case 0x55 => 0xfce31ffc case 0x56 => 0xb179c8b1 case 0x57 => 0x5bb6ed5b
      case 0x58 => 0x6ad4be6a case 0x59 => 0xcb8d46cb case 0x5a => 0xbe67d9be case 0x5b => 0x39724b39
      case 0x5c => 0x4a94de4a case 0x5d => 0x4c98d44c case 0x5e => 0x58b0e858 case _ => 0xcf854acf
    } else if x < 0x70 then match x {
      case 0x60 => 0xd0bb6bd0 case 0x61 => 0xefc52aef case 0x62 => 0xaa4fe5aa case 0x63 => 0xfbed16fb
      case 0x64 => 0x4386c543 case 0x65 => 0x4d9ad74d case 0x66 => 0x33665533 case 0x67 => 0x85119485
      case 0x68 => 0x458acf45 case 0x69 => 0xf9e910f9 case 0x6a => 0x02040602 case 0x6b => 0x7ffe817f
      case 0x6c => 0x50a0f050 case 0x6d => 0x3c78443c case 0x6e => 0x9f25ba9f case _ => 0xa84be3a8
    } else if x < 0x80 then match x {
      case 0x70 => 0x51a2f351 case 0x71 => 0xa35dfea3 case 0x72 => 0x4080c040 case 0x73 => 0x8f058a8f
      case 0x74 => 0x923fad92 case 0x75 => 0x9d21bc9d case 0x76 => 0x38704838 case 0x77 => 0xf5f104f5
      case 0x78 => 0xbc63dfbc case 0x79 => 0xb677c1b6 case 0x7a => 0xdaaf75da case 0x7b => 0x21426321
      case 0x7c => 0x10203010 case 0x7d => 0xffe51aff case 0x7e => 0xf3fd0ef3 case _ => 0xd2bf6dd2
    } else if x < 0x90 then match x {
      case 0x80 => 0xcd814ccd case 0x81 => 0x0c18140c case 0x82 => 0x13263513 case 0x83 => 0xecc32fec
      case 0x84 => 0x5fbee15f case 0x85 => 0x9735a297 case 0x86 => 0x4488cc44 case 0x87 => 0x172e3917
      case 0x88 => 0xc49357c4 case 0x89 => 0xa755f2a7 case 0x8a => 0x7efc827e case 0x8b => 0x3d7a473d
      case 0x8c => 0x64c8ac64 case 0x8d => 0x5dbae75d case 0x8e => 0x19322b19 case _ => 0x73e69573
    } else if x < 0xa0 then match x {
      case 0x90 => 0x60c0a060 case 0x91 => 0x81199881 case 0x92 => 0x4f9ed14f case 0x93 => 0xdca37fdc
      case 0x94 => 0x22446622 case 0x95 => 0x2a547e2a case 0x96 => 0x903bab90 case 0x97 => 0x880b8388
      case 0x98 => 0x468cca46 case 0x99 => 0xeec729ee case 0x9a => 0xb86bd3b8 case 0x9b => 0x14283c14
      case 0x9c => 0xdea779de case 0x9d => 0x5ebce25e case 0x9e => 0x0b161d0b case _ => 0xdbad76db
    } else if x < 0xb0 then match x {
      case 0xa0 => 0xe0db3be0 case 0xa1 => 0x32645632 case 0xa2 => 0x3a744e3a case 0xa3 => 0x0a141e0a
      case 0xa4 => 0x4992db49 case 0xa5 => 0x060c0a06 case 0xa6 => 0x24486c24 case 0xa7 => 0x5cb8e45c
      case 0xa8 => 0xc29f5dc2 case 0xa9 => 0xd3bd6ed3 case 0xaa => 0xac43efac case 0xab => 0x62c4a662
      case 0xac => 0x9139a891 case 0xad => 0x9531a495 case 0xae => 0xe4d337e4 case _ => 0x79f28b79
    } else if x < 0xc0 then match x {
      case 0xb0 => 0xe7d532e7 case 0xb1 => 0xc88b43c8 case 0xb2 => 0x376e5937 case 0xb3 => 0x6ddab76d
      case 0xb4 => 0x8d018c8d case 0xb5 => 0xd5b164d5 case 0xb6 => 0x4e9cd24e case 0xb7 => 0xa949e0a9
      case 0xb8 => 0x6cd8b46c case 0xb9 => 0x56acfa56 case 0xba => 0xf4f307f4 case 0xbb => 0xeacf25ea
      case 0xbc => 0x65caaf65 case 0xbd => 0x7af48e7a case 0xbe => 0xae47e9ae case _ => 0x08101808
    } else if x < 0xd0 then match x {
      case 0xc0 => 0xba6fd5ba case 0xc1 => 0x78f08878 case 0xc2 => 0x254a6f25 case 0xc3 => 0x2e5c722e
      case 0xc4 => 0x1c38241c case 0xc5 => 0xa657f1a6 case 0xc6 => 0xb473c7b4 case 0xc7 => 0xc69751c6
      case 0xc8 => 0xe8cb23e8 case 0xc9 => 0xdda17cdd case 0xca => 0x74e89c74 case 0xcb => 0x1f3e211f
      case 0xcc => 0x4b96dd4b case 0xcd => 0xbd61dcbd case 0xce => 0x8b0d868b case _ => 0x8a0f858a
    } else if x < 0xe0 then match x {
      case 0xd0 => 0x70e09070 case 0xd1 => 0x3e7c423e case 0xd2 => 0xb571c4b5 case 0xd3 => 0x66ccaa66
      case 0xd4 => 0x4890d848 case 0xd5 => 0x03060503 case 0xd6 => 0xf6f701f6 case 0xd7 => 0x0e1c120e
      case 0xd8 => 0x61c2a361 case 0xd9 => 0x356a5f35 case 0xda => 0x57aef957 case 0xdb => 0xb969d0b9
      case 0xdc => 0x86179186 case 0xdd => 0xc19958c1 case 0xde => 0x1d3a271d case _ => 0x9e27b99e
    } else if x < 0xf0 then match x {
      case 0xe0 => 0xe1d938e1 case 0xe1 => 0xf8eb13f8 case 0xe2 => 0x982bb398 case 0xe3 => 0x11223311
      case 0xe4 => 0x69d2bb69 case 0xe5 => 0xd9a970d9 case 0xe6 => 0x8e07898e case 0xe7 => 0x9433a794
      case 0xe8 => 0x9b2db69b case 0xe9 => 0x1e3c221e case 0xea => 0x87159287 case 0xeb => 0xe9c920e9
      case 0xec => 0xce8749ce case 0xed => 0x55aaff55 case 0xee => 0x28507828 case _ => 0xdfa57adf
    } else match x {
      case 0xf0 => 0x8c038f8c case 0xf1 => 0xa159f8a1 case 0xf2 => 0x89098089 case 0xf3 => 0x0d1a170d
      case 0xf4 => 0xbf65dabf case 0xf5 => 0xe6d731e6 case 0xf6 => 0x4284c642 case 0xf7 => 0x68d0b868
      case 0xf8 => 0x4182c341 case 0xf9 => 0x9929b099 case 0xfa => 0x2d5a772d case 0xfb => 0x0f1e110f
      case 0xfc => 0xb07bcbb0 case 0xfd => 0x54a8fc54 case 0xfe => 0xbb6dd6bb case _ => 0x162c3a16
    }
  }

  // crypto_ft_tab[3]
  function Ft3(x: int): bv32
  {
    if x < 0x10 then match x {
      case 0x00 => 0xc6a56363 case 0x01 => 0xf8847c7c case 0x02 => 0xee997777 case 0x03 => 0xf68d7b7b
      case 0x04 => 0xff0df2f2 case 0x05 => 0xd6bd6b6b case 0x06 => 0xdeb16f6f case 0x07 => 0x9154c5c5
      case 0x08 => 0x60503030 case 0x09 => 0x02030101 case 0x0a => 0xcea96767 case 0x0b => 0x567d2b2b
      case 0x0c => 0xe719fefe case 0x0d => 0xb562d7d7 case 0x0e => 0x4de6abab case _ => 0xec9a7676
    } else if x < 0x20 then match x {
      case 0x10 => 0x8f45caca case 0x11 => 0x1f9d8282 case 0x12 => 0x8940c9c9 case 0x13 => 0xfa877d7d
      case 0x14 => 0xef15fafa case 0x15 => 0xb2eb5959 case 0x16 => 0x8ec94747 case 0x17 => 0xfb0bf0f0
      case 0x18 => 0x41ecadad case 0x19 => 0xb367d4d4 case 0x1a => 0x5ffda2a2 case 0x1b => 0x45eaafaf
      case 0x1c => 0x23bf9c9c case 0x1d => 0x53f7a4a4 case 0x1e => 0xe4967272 case _ => 0x9b5bc0c0
    } else if x < 0x30 then match x {
      case 0x20 => 0x75c2b7b7 case 0x21 => 0xe11cfdfd case 0x22 => 0x3dae9393 case 0x23 => 0x4c6a2626
      case 0x24 => 0x6c5a3636 case 0x25 => 0x7e413f3f case 0x26 => 0xf502f7f7 case 0x27 => 0x834fcccc
      case 0x28 => 0x685c3434 case 0x29 => 0x51f4a5a5 case 0x2a => 0xd134e5e5 case 0x2b => 0xf908f1f1
      case 0x2c => 0xe2937171 case 0x2d => 0xab73d8d8 case 0x2e => 0x62533131 case _ => 0x2a3f1515
    } else if x < 0x40 then match x {
      case 0x30 => 0x080c0404 case 0x31 => 0x9552c7c7 case 0x32 => 0x46652323 case 0x33 => 0x9d5ec3c3
      case 0x34 => 0x30281818 case 0x35 => 0x37a19696 case 0x36 => 0x0a0f0505 case 0x37 => 0x2fb59a9a
      case 0x38 => 0x0e090707 case 0x39 => 0x24361212 case 0x3a => 0x1b9b8080 case 0x3b => 0xdf3de2e2
      case 0x3c => 0xcd26ebeb case 0x3d => 0x4e692727 case 0x3e => 0x7fcdb2b2 case _ => 0xea9f7575
    } else if x < 0x50 then match x {
      case 0x40 => 0x121b0909 case 0x41 => 0x1d9e8383 case 0x42 => 0x58742c2c case 0x43 => 0x342e1a1a
      case 0x44 => 0x362d1b1b case 0x45 => 0xdcb26e6e case 0x46 => 0xb4ee5a5a case 0x47 => 0x5bfba0a0
      case 0x48 => 0xa4f65252 case 0x49 => 0x764d3b3b case 0x4a => 0xb761d6d6 case 0x4b => 0x7dceb3b3
      case 0x4c => 0x527b2929 case 0x4d => 0xdd3ee3e3 case 0x4e => 0x5e712f2f case _ => 0x13978484
    } else if x < 0x60 then match x {
      case 0x50 => 0xa6f55353 case 0x51 => 0xb968d1d1 case 0x52 => 0x00000000 case 0x53 => 0xc12ceded
      case 0x54 => 0x40602020 case 0x55 => 0xe31ffcfc case 0x56 => 0x79c8b1b1 case 0x57 => 0xb6ed5b5b
      case 0x58 => 0xd4be6a6a case 0x59 => 0x8d46cbcb case 0x5a => 0x67d9bebe case 0x5b => 0x724b3939
      case 0x5c => 0x94de4a4a case 0x5d => 0x98d44c4c case 0x5e => 0xb0e85858 case _ => 0x854acfcf
    } else if x < 0x70 then match x {
      case 0x60 => 0xbb6bd0d0 case 0x61 => 0xc52aefef case 0x62 => 0x4fe5aaaa case 0x63 => 0xed16fbfb
      case 0x64 => 0x86c54343 case 0x65 => 0x9ad74d4d case 0x66 => 0x66553333 case 0x67 => 0x11948585
      case 0x68 => 0x8acf4545 case 0x69 => 0xe910f9f9 case 0x6a => 0x04060202 case 0x6b => 0xfe817f7f
      case 0x6c => 0xa0f05050 case 0x6d => 0x78443c3c case 0x6e => 0x25ba9f9f case _ => 0x4be3a8a8
    } else if x < 0x80 then match x {
      case 0x70 => 0xa2f35151 case 0x71 => 0x5dfea3a3 case 0x72 => 0x80c04040 case 0x73 => 0x058a8f8f
      case 0x74 => 0x3fad9292 case 0x75 => 0x21bc9d9d case 0x76 => 0x70483838 case 0x77 => 0xf104f5f5
      case 0x78 => 0x63dfbcbc case 0x79 => 0x77c1b6b6 case 0x7a => 0xaf75dada case 0x7b => 0x42632121
      case 0x7c => 0x20301010 case 0x7d => 0xe51affff case 0x7e => 0xfd0ef3f3 case _ => 0xbf6dd2d2
    } else if x < 0x90 then match x {
      case 0x80 => 0x814ccdcd case 0x81 => 0x18140c0c case 0x82 => 0x26351313 case 0x83 => 0xc32fecec
      case 0x84 => 0xbee15f5f case 0x85 => 0x35a29797 case 0x86 => 0x88cc4444 case 0x87 => 0x2e391717
      case 0x88 => 0x9357c4c4 case 0x89 => 0x55f2a7a7 case 0x8a => 0xfc827e7e case 0x8b => 0x7a473d3d
      case 0x8c => 0xc8ac6464 case 0x8d => 0xbae75d5d case 0x8e => 0x322b1919 case _ => 0xe6957373
    } else if x < 0xa0 then match x {
      case 0x90 => 0xc0a06060 case 0x91 => 0x19988181 case 0x92 => 0x9ed14f4f case 0x93 => 0xa37fdcdc
      case 0x94 => 0x44662222 case 0x95 => 0x547e2a2a case 0x96 => 0x3bab9090 case 0x97 => 0x0b838888
      case 0x98 => 0x8cca4646 case 0x99 => 0xc729eeee case 0x9a => 0x6bd3b8b8 case 0x9b => 0x283c1414
      case 0x9c => 0xa779dede case 0x9d => 0xbce25e5e case 0x9e => 0x161d0b0b case _ => 0xad76dbdb
    } else if x < 0xb0 then match x {
      case 0xa0 => 0xdb3be0e0 case 0xa1 => 0x64563232 case 0xa2 => 0x744e3a3a case 0xa3 => 0x141e0a0a
      case 0xa4 => 0x92db4949 case 0xa5 => 0x0c0a0606 case 0xa6 => 0x486c2424 case 0xa7 => 0xb8e45c5c
      case 0xa8 => 0x9f5dc2c2 case 0xa9 => 0xbd6ed3d3 case 0xaa => 0x43efacac case 0xab => 0xc4a66262
      case 0xac => 0x39a89191 case 0xad => 0x31a49595 case 0xae => 0xd337e4e4 case _ => 0xf28b7979
    } else if x < 0xc0 then match x {
      case 0xb0 => 0xd532e7e7 case 0xb1 => 0x8b43c8c8 case 0xb2 => 0x6e593737 case 0xb3 => 0xdab76d6d
      case 0xb4 => 0x018c8d8d case 0xb5 => 0xb164d5d5 case 0xb6 => 0x9cd24e4e case 0xb7 => 0x49e0a9a9
      case 0xb8 => 0xd8b46c6c case 0xb9 => 0xacfa5656 case 0xba => 0xf307f4f4 case 0xbb => 0xcf25eaea
      case 0xbc => 0xcaaf6565 case 0xbd => 0xf48e7a7a case 0xbe => 0x47e9aeae case _ => 0x10180808
    } else if x < 0xd0 then match x {
      case 0xc0 => 0x6fd5baba case 0xc1 => 0xf0887878 case 0xc2 => 0x4a6f2525 case 0xc3 => 0x5c722e2e
      case 0xc4 => 0x38241c1c case 0xc5 => 0x57f1a6a6 case 0xc6 => 0x73c7b4b4 case 0xc7 => 0x9751c6c6
      case 0xc8 => 0xcb23e8e8 case 0xc9 => 0xa17cdddd case 0xca => 0xe89c7474 case 0xcb => 0x3e211f1f
      case 0xcc => 0x96dd4b4b case 0xcd => 0x61dcbdbd case 0xce => 0x0d868b8b case _ => 0x0f858a8a
    } else if x < 0xe0 then match x {
      case 0xd0 => 0xe0907070 case 0xd1 => 0x7c423e3e case 0xd2 => 0x71c4b5b5 case 0xd3 => 0xccaa6666
      case 0xd4 => 0x90d84848 case 0xd5 => 0x06050303 case 0xd6 => 0xf701f6f6 case 0xd7 => 0x1c120e0e
      case 0xd8 => 0xc2a36161 case 0xd9 => 0x6a5f3535 case 0xda => 0xaef95757 case 0xdb => 0x69d0b9b9
      case 0xdc => 0x17918686 case 0xdd => 0x9958c1c1 case 0xde => 0x3a271d1d case _ => 0x27b99e9e
    } else if x < 0xf0 then match x {
      case 0xe0 => 0xd938e1e1 case 0xe1 => 0xeb13f8f8 case 0xe2 => 0x2bb39898 case 0xe3 => 0x22331111
      case 0xe4 => 0xd2bb6969 case 0xe5 => 0xa970d9d9 case 0xe6 => 0x07898e8e case 0xe7 => 0x33a79494
      case 0xe8 => 0x2db69b9b case 0xe9 => 0x3c221e1e case 0xea => 0x15928787 case 0xeb => 0xc920e9e9
      case 0xec => 0x8749cece case 0xed => 0xaaff5555 case 0xee => 0x50782828 case _ => 0xa57adfdf
    } else match x {
      case 0xf0 => 0x038f8c8c case 0xf1 => 0x59f8a1a1 case 0xf2 => 0x09808989 case 0xf3 => 0x1a170d0d
      case 0xf4 => 0x65dabfbf case 0xf5 => 0xd731e6e6 case 0xf6 => 0x84c64242 case 0xf7 => 0xd0b86868
      case 0xf8 => 0x82c34141 case 0xf9 => 0x29b09999 case 0xfa => 0x5a772d2d case 0xfb => 0x1e110f0f
      case 0xfc => 0x7bcbb0b0 case 0xfd => 0xa8fc5454 case 0xfe => 0x6dd6bbbb case _ => 0x2c3a1616
    }
  }

  // crypto_fl_tab[0]
  function Fl0(x: int): bv32
  {
    if x < 0x10 then match x {
      case 0x00 => 0x00000063 case 0x01 => 0x0000007c case 0x02 => 0x00000077 case 0x03 => 0x0000007b case 0x04 => 0x000000f2 case 0x05 => 0x0000006b case 0x06 => 0x0000006f case 0x07 => 0x000000c5
      case 0x08 => 0x00000030 case 0x09 => 0x00000001 case 0x0a => 0x00000067 case 0x0b => 0x0000002b case 0x0c => 0x000000fe case 0x0d => 0x000000d7 case 0x0e => 0x000000ab case _ => 0x00000076
    } else if x < 0x20 then match x {
      case 0x10 => 0x000000ca case 0x11 => 0x00000082 case 0x12 => 0x000000c9 case 0x13 => 0x0000007d case 0x14 => 0x000000fa case 0x15 => 0x00000059 case 0x16 => 0x00000047 case 0x17 => 0x000000f0
      case 0x18 => 0x000000ad case 0x19 => 0x000000d4 case 0x1a => 0x000000a2 case 0x1b => 0x000000af case 0x1c => 0x0000009c case 0x1d => 0x000000a4 case 0x1e => 0x00000072 case _ => 0x000000c0
    } else if x < 0x30 then match x {
      case 0x20 => 0x000000b7 case 0x21 => 0x000000fd case 0x22 => 0x00000093 case 0x23 => 0x00000026 case 0x24 => 0x00000036 case 0x25 => 0x0000003f case 0x26 => 0x000000f7 case 0x27 => 0x000000cc
      case 0x28 => 0x00000034 case 0x29 => 0x000000a5 case 0x2a => 0x000000e5 case 0x2b => 0x000000f1 case 0x2c => 0x00000071 case 0x2d => 0x000000d8 case 0x2e => 0x00000031 case _ => 0x00000015
    } else if x < 0x40 then match x {
      case 0x30 => 0x00000004 case 0x31 => 0x000000c7 case 0x32 => 0x00000023 case 0x33 => 0x000000c3 case 0x34 => 0x00000018 case 0x35 => 0x00000096 case 0x36 => 0x00000005 case 0x37 => 0x0000009a
      case 0x38 => 0x00000007 case 0x39 => 0x00000012 case 0x3a => 0x00000080 case 0x3b => 0x000000e2 case 0x3c => 0x000000eb case 0x3d => 0x00000027 case 0x3e => 0x000000b2 case _ => 0x00000075
    } else if x < 0x50 then match x {
      case 0x40 => 0x00000009 case 0x41 => 0x00000083 case 0x42 => 0x0000002c case 0x43 => 0x0000001a case 0x44 => 0x0000001b case 0x45 => 0x0000006e case 0x46 => 0x0000005a case 0x47 => 0x000000a0
      case 0x48 => 0x00000052 case 0x49 => 0x0000003b case 0x4a => 0x000000d6 case 0x4b => 0x000000b3 case 0x4c => 0x00000029 case 0x4d => 0x000000e3 case 0x4e => 0x0000002f case _ => 0x00000084
    } else if x < 0x60 then match x {
      case 0x50 => 0x00000053 case 0x51 => 0x000000d1 case 0x52 => 0x00000000 case 0x53 => 0x000000ed case 0x54 => 0x00000020 case 0x55 => 0x000000fc case 0x56 => 0x000000b1 case 0x57 => 0x0000005b
      case 0x58 => 0x0000006a case 0x59 => 0x000000cb case 0x5a => 0x000000be case 0x5b => 0x00000039 case 0x5c => 0x0000004a case 0x5d => 0x0000004c case 0x5e => 0x00000058 case _ => 0x000000cf
    } else if x < 0x70 then match x {
      case 0x60 => 0x000000d0 case 0x61 => 0x000000ef case 0x62 => 0x000000aa case 0x63 => 0x000000fb case 0x64 => 0x00000043 case 0x65 => 0x0000004d case 0x66 => 0x00000033 case 0x67 => 0x00000085
      case 0x68 => 0x00000045 case 0x69 => 0x000000f9 case 0x6a => 0x00000002 case 0x6b => 0x0000007f case 0x6c => 0x00000050 case 0x6d => 0x0000003c case 0x6e => 0x0000009f case _ => 0x000000a8
    } else if x < 0x80 then match x {
      case 0x70 => 0x00000051 case 0x71 => 0x000000a3 case 0x72 => 0x00000040 case 0x73 => 0x0000008f case 0x74 => 0x00000092 case 0x75 => 0x0000009d case 0x76 => 0x00000038 case 0x77 => 0x000000f5
      case 0x78 => 0x000000bc case 0x79 => 0x000000b6 case 0x7a => 0x000000da case 0x7b => 0x00000021 case 0x7c => 0x00000010 case 0x7d => 0x000000ff case 0x7e => 0x000000f3 case _ => 0x000000d2
    } else if x < 0x90 then match x {
      case 0x80 => 0x000000cd case 0x81 => 0x0000000c case 0x82 => 0x00000013 case 0x83 => 0x000000ec case 0x84 => 0x0000005f case 0x85 => 0x00000097 case 0x86 => 0x00000044 case 0x87 => 0x00000017
      case 0x88 => 0x000000c4 case 0x89 => 0x000000a7 case 0x8a => 0x0000007e case 0x8b => 0x0000003d case 0x8c => 0x00000064 case 0x8d => 0x0000005d case 0x8e => 0x00000019 case _ => 0x00000073
    } else if x < 0xa0 then match x {
      case 0x90 => 0x00000060 case 0x91 => 0x00000081 case 0x92 => 0x0000004f case 0x93 => 0x000000dc case 0x94 => 0x00000022 case 0x95 => 0x0000002a case 0x96 => 0x00000090 case 0x97 => 0x00000088
      case 0x98 => 0x00000046 case 0x99 => 0x000000ee case 0x9a => 0x000000b8 case 0x9b => 0x00000014 case 0x9c => 0x000000de case 0x9d => 0x0000005e case 0x9e => 0x0000000b case _ => 0x000000db
    } else if x < 0xb0 then match x {
      case 0xa0 => 0x000000e0 case 0xa1 => 0x00000032 case 0xa2 => 0x0000003a case 0xa3 => 0x0000000a case 0xa4 => 0x00000049 case 0xa5 => 0x00000006 case 0xa6 => 0x00000024 case 0xa7 => 0x0000005c
      case 0xa8 => 0x000000c2 case 0xa9 => 0x000000d3 case 0xaa => 0x000000ac case 0xab => 0x00000062 case 0xac => 0x00000091 case 0xad => 0x00000095 case 0xae => 0x000000e4 case _ => 0x00000079
    } else if x < 0xc0 then match x {
      case 0xb0 => 0x000000e7 case 0xb1 => 0x000000c8 case 0xb2 => 0x00000037 case 0xb3 => 0x0000006d case 0xb4 => 0x0000008d case 0xb5 => 0x000000d5 case 0xb6 => 0x0000004e case 0xb7 => 0x000000a9
      case 0xb8 => 0x0000006c case 0xb9 => 0x00000056 case 0xba => 0x000000f4 case 0xbb => 0x000000ea case 0xbc => 0x00000065 case 0xbd => 0x0000007a case 0xbe => 0x000000ae case _ => 0x00000008
    } else if x < 0xd0 then match x {
      case 0xc0 => 0x000000ba case 0xc1 => 0x00000078 case 0xc2 => 0x00000025 case 0xc3 => 0x0000002e case 0xc4 => 0x0000001c case 0xc5 => 0x000000a6 case 0xc6 => 0x000000b4 case 0xc7 => 0x000000c6
      case 0xc8 => 0x000000e8 case 0xc9 => 0x000000dd case 0xca => 0x00000074 case 0xcb => 0x0000001f case 0xcc => 0x0000004b case 0xcd => 0x000000bd case 0xce => 0x0000008b case _ => 0x0000008a
    } else if x < 0xe0 then match x {
      case 0xd0 => 0x00000070 case 0xd1 => 0x0000003e case 0xd2 => 0x000000b5 case 0xd3 => 0x00000066 case 0xd4 => 0x00000048 case 0xd5 => 0x00000003 case 0xd6 => 0x000000f6 case 0xd7 => 0x0000000e
      case 0xd8 => 0x00000061 case 0xd9 => 0x00000035 case 0xda => 0x00000057 case 0xdb => 0x000000b9 case 0xdc => 0x00000086 case 0xdd => 0x000000c1 case 0xde => 0x0000001d case _ => 0x0000009e
    } else if x < 0xf0 then match x {
      case 0xe0 => 0x000000e1 case 0xe1 => 0x000000f8 case 0xe2 => 0x00000098 case 0xe3 => 0x00000011 case 0xe4 => 0x00000069 case 0xe5 => 0x000000d9 case 0xe6 => 0x0000008e case 0xe7 => 0x00000094
      case 0xe8 => 0x0000009b case 0xe9 => 0x0000001e case 0xea => 0x00000087 case 0xeb => 0x000000e9 case 0xec => 0x000000ce case 0xed => 0x00000055 case 0xee => 0x00000028 case _ => 0x000000df
    } else match x {
      case 0xf0 => 0x0000008c case 0xf1 => 0x000000a1 case 0xf2 => 0x00000089 case 0xf3 => 0x0000000d case 0xf4 => 0x000000bf case 0xf5 => 0x000000e6 case 0xf6 => 0x00000042 case 0xf7 => 0x00000068
      case 0xf8 => 0x00000041 case 0xf9 => 0x00000099 case 0xfa => 0x0000002d case 0xfb => 0x0000000f case 0xfc => 0x000000b0 case 0xfd => 0x00000054 case 0xfe => 0x000000bb case _ => 0x00000016
    }
  }

  // crypto_fl_tab[1]
  function Fl1(x: int): bv32
  {
    if x < 0x10 then match x {
      case 0x00 => 0x00006300 case 0x01 => 0x00007c00 case 0x02 => 0x00007700 case 0x03 => 0x00007b00 case 0x04 => 0x0000f200 case 0x05 => 0x00006b00 case 0x06 => 0x00006f00 case 0x07 => 0x0000c500
      case 0x08 => 0x00003000 case 0x09 => 0x00000100 case 0x0a => 0x00006700 case 0x0b => 0x00002b00 case 0x0c => 0x0000fe00 case 0x0d => 0x0000d700 case 0x0e => 0x0000ab00 case _ => 0x00007600
    } else if x < 0x20 then match x {
      case 0x10 => 0x0000ca00 case 0x11 => 0x00008200 case 0x12 => 0x0000c900 case 0x13 => 0x00007d00 case 0x14 => 0x0000fa00 case 0x15 => 0x00005900 case 0x16 => 0x00004700 case 0x17 => 0x0000f000
      case 0x18 => 0x0000ad00 case 0x19 => 0x0000d400 case 0x1a => 0x0000a200 case 0x1b => 0x0000af00 case 0x1c => 0x00009c00 case 0x1d => 0x0000a400 case 0x1e => 0x00007200 case _ => 0x0000c000
    } else if x < 0x30 then match x {
      case 0x20 => 0x0000b700 case 0x21 => 0x0000fd00 case 0x22 => 0x00009300 case 0x23 => 0x00002600 case 0x24 => 0x00003600 case 0x25 => 0x00003f00 case 0x26 => 0x0000f700 case 0x27 => 0x0000cc00
      case 0x28 => 0x00003400 case 0x29 => 0x0000a500 case 0x2a => 0x0000e500 case 0x2b => 0x0000f100 case 0x2c => 0x00007100 case 0x2d => 0x0000d800 case 0x2e => 0x00003100 case _ => 0x00001500
    } else if x < 0x40 then match x {
      case 0x30 => 0x00000400 case 0x31 => 0x0000c700 case 0x32 => 0x00002300 case 0x33 => 0x0000c300 case 0x34 => 0x00001800 case 0x35 => 0x00009600 case 0x36 => 0x00000500 case 0x37 => 0x00009a00
      case 0x38 => 0x00000700 case 0x39 => 0x00001200 case 0x3a => 0x00008000 case 0x3b => 0x0000e200 case 0x3c => 0x0000eb00 case 0x3d => 0x00002700 case 0x3e => 0x0000b200 case _ => 0x00007500
    } else if x < 0x50 then match x {
      case 0x40 => 0x00000900 case 0x41 => 0x00008300 case 0x42 => 0x00002c00 case 0x43 => 0x00001a00 case 0x44 => 0x00001b00 case 0x45 => 0x00006e00 case 0x46 => 0x00005a00 case 0x47 => 0x0000a000
      case 0x48 => 0x00005200 case 0x49 => 0x00003b00 case 0x4a => 0x0000d600 case 0x4b => 0x0000b300 case 0x4c => 0x00002900 case 0x4d => 0x0000e300 case 0x4e => 0x00002f00 case _ => 0x00008400
    } else if x < 0x60 then match x {
      case 0x50 => 0x00005300 case 0x51 => 0x0000d100 case 0x52 => 0x00000000 case 0x53 => 0x0000ed00 case 0x54 => 0x00002000 case 0x55 => 0x0000fc00 case 0x56 => 0x0000b100 case 0x57 => 0x00005b00
      case 0x58 => 0x00006a00 case 0x59 => 0x0000cb00 case 0x5a => 0x0000be00 case 0x5b => 0x00003900 case 0x5c => 0x00004a00 case 0x5d => 0x00004c00 case 0x5e => 0x00005800 case _ => 0x0000cf00
    } else if x < 0x70 then match x {
      case 0x60 => 0x0000d000 case 0x61 => 0x0000ef00 case 0x62 => 0x0000aa00 case 0x63 => 0x0000fb00 case 0x64 => 0x00004300 case 0x65 => 0x00004d00 case 0x66 => 0x00003300 case 0x67 => 0x00008500
      case 0x68 => 0x00004500 case 0x69 => 0x0000f900 case 0x6a => 0x00000200 case 0x6b => 0x00007f00 case 0x6c => 0x00005000 case 0x6d => 0x00003c00 case 0x6e => 0x00009f00 case _ => 0x0000a800
    } else if x < 0x80 then match x {
      case 0x70 => 0x00005100 case 0x71 => 0x0000a300 case 0x72 => 0x00004000 case 0x73 => 0x00008f00 case 0x74 => 0x00009200 case 0x75 => 0x00009d00 case 0x76 => 0x00003800 case 0x77 => 0x0000f500
      case 0x78 => 0x0000bc00 case 0x79 => 0x0000b600 case 0x7a => 0x0000da00 case 0x7b => 0x00002100 case 0x7c => 0x00001000 case 0x7d => 0x0000ff00 case 0x7e => 0x0000f300 case _ => 0x0000d200
    } else if x < 0x90 then match x {
      case 0x80 => 0x0000cd00 case 0x81 => 0x00000c00 case 0x82 => 0x00001300 case 0x83 => 0x0000ec00 case 0x84 => 0x00005f00 case 0x85 => 0x00009700 case 0x86 => 0x00004400 case 0x87 => 0x00001700
      case 0x88 => 0x0000c400 case 0x89 => 0x0000a700 case 0x8a => 0x00007e00 case 0x8b => 0x00003d00 case 0x8c => 0x00006400 case 0x8d => 0x00005d00 case 0x8e => 0x00001900 case _ => 0x00007300
    } else if x < 0xa0 then match x {
      case 0x90 => 0x00006000 case 0x91 => 0x00008100 case 0x92 => 0x00004f00 case 0x93 => 0x0000dc00 case 0x94 => 0x00002200 case 0x95 => 0x00002a00 case 0x96 => 0x00009000 case 0x97 => 0x00008800
      case 0x98 => 0x00004600 case 0x99 => 0x0000ee00 case 0x9a => 0x0000b800 case 0x9b => 0x00001400 case 0x9c => 0x0000de00 case 0x9d => 0x00005e00 case 0x9e => 0x00000b00 case _ => 0x0000db00
    } else if x < 0xb0 then match x {
      case 0xa0 => 0x0000e000 case 0xa1 => 0x00003200 case 0xa2 => 0x00003a00 case 0xa3 => 0x00000a00 case 0xa4 => 0x00004900 case 0xa5 => 0x00000600 case 0xa6 => 0x00002400 case 0xa7 => 0x00005c00
      case 0xa8 => 0x0000c200 case 0xa9 => 0x0000d300 case 0xaa => 0x0000ac00 case 0xab => 0x00006200 case 0xac => 0x00009100 case 0xad => 0x00009500 case 0xae => 0x0000e400 case _ => 0x00007900
    } else if x < 0xc0 then match x {
      case 0xb0 => 0x0000e700 case 0xb1 => 0x0000c800 case 0xb2 => 0x00003700 case 0xb3 => 0x00006d00 case 0xb4 => 0x00008d00 case 0xb5 => 0x0000d500 case 0xb6 => 0x00004e00 case 0xb7 => 0x0000a900
      case 0xb8 => 0x00006c00 case 0xb9 => 0x00005600 case 0xba => 0x0000f400 case 0xbb => 0x0000ea00 case 0xbc => 0x00006500 case 0xbd => 0x00007a00 case 0xbe => 0x0000ae00 case _ => 0x00000800
    } else if x < 0xd0 then match x {
      case 0xc0 => 0x0000ba00 case 0xc1 => 0x00007800 case 0xc2 => 0x00002500 case 0xc3 => 0x00002e00 case 0xc4 => 0x00001c00 case 0xc5 => 0x0000a600 case 0xc6 => 0x0000b400 case 0xc7 => 0x0000c600
      case 0xc8 => 0x0000e800 case 0xc9 => 0x0000dd00 case 0xca => 0x00007400 case 0xcb => 0x00001f00 case 0xcc => 0x00004b00 case 0xcd => 0x0000bd00 case 0xce => 0x00008b00 case _ => 0x00008a00
    } else if x < 0xe0 then match x {
      case 0xd0 => 0x00007000 case 0xd1 => 0x00003e00 case 0xd2 => 0x0000b500 case 0xd3 => 0x00006600 case 0xd4 => 0x00004800 case 0xd5 => 0x00000300 case 0xd6 => 0x0000f600 case 0xd7 => 0x00000e00
      case 0xd8 => 0x00006100 case 0xd9 => 0x00003500 case 0xda => 0x00005700 case 0xdb => 0x0000b900 case 0xdc => 0x00008600 case 0xdd => 0x0000c100 case 0xde => 0x00001d00 case _ => 0x00009e00
    } else if x < 0xf0 then match x {
      case 0xe0 => 0x0000e100 case 0xe1 => 0x0000f800 case 0xe2 => 0x00009800 case 0xe3 => 0x00001100 case 0xe4 => 0x00006900 case 0xe5 => 0x0000d900 case 0xe6 => 0x00008e00 case 0xe7 => 0x00009400
      case 0xe8 => 0x00009b00 case 0xe9 => 0x00001e00 case 0xea => 0x00008700 case 0xeb => 0x0000e900 case 0xec => 0x0000ce00 case 0xed => 0x00005500 case 0xee => 0x00002800 case _ => 0x0000df00
    } else match x {
      case 0xf0 => 0x00008c00 case 0xf1 => 0x0000a100 case 0xf2 => 0x00008900 case 0xf3 => 0x00000d00 case 0xf4 => 0x0000bf00 case 0xf5 => 0x0000e600 case 0xf6 => 0x00004200 case 0xf7 => 0x00006800
      case 0xf8 => 0x00004100 case 0xf9 => 0x00009900 case 0xfa => 0x00002d00 case 0xfb => 0x00000f00 case 0xfc => 0x0000b000 case 0xfd => 0x00005400 case 0xfe => 0x0000bb00 case _ => 0x00001600
    }
  }

  // crypto_fl_tab[2]
  function Fl2(x: int): bv32
  {
    if x < 0x10 then match x {
      case 0x00 => 0x00630000 case 0x01 => 0x007c0000 case 0x02 => 0x00770000 case 0x03 => 0x007b0000 case 0x04 => 0x00f20000 case 0x05 => 0x006b0000 case 0x06 => 0x006f0000 case 0x07 => 0x00c50000
      case 0x08 => 0x00300000 case 0x09 => 0x00010000 case 0x0a => 0x00670000 case 0x0b => 0x002b0000 case 0x0c => 0x00fe0000 case 0x0d => 0x00d70000 case 0x0e => 0x00ab0000 case _ => 0x00760000
    } else if x < 0x20 then match x {
      case 0x10 => 0x00ca0000 case 0x11 => 0x00820000 case 0x12 => 0x00c90000 case 0x13 => 0x007d0000 case 0x14 => 0x00fa0000 case 0x15 => 0x00590000 case 0x16 => 0x00470000 case 0x17 => 0x00f00000
      case 0x18 => 0x00ad0000 case 0x19 => 0x00d40000 case 0x1a => 0x00a20000 case 0x1b => 0x00af0000 case 0x1c => 0x009c0000 case 0x1d => 0x00a40000 case 0x1e => 0x00720000 case _ => 0x00c00000
    } else if x < 0x30 then match x {
      case 0x20 => 0x00b70000 case 0x21 => 0x00fd0000 case 0x22 => 0x00930000 case 0x23 => 0x00260000 case 0x24 => 0x00360000 case 0x25 => 0x003f0000 case 0x26 => 0x00f70000 case 0x27 => 0x00cc0000
      case 0x28 => 0x00340000 case 0x29 => 0x00a50000 case 0x2a => 0x00e50000 case 0x2b => 0x00f10000 case 0x2c => 0x00710000 case 0x2d => 0x00d80000 case 0x2e => 0x00310000 case _ => 0x00150000
    } else if x < 0x40 then match x {
      case 0x30 => 0x00040000 case 0x31 => 0x00c70000 case 0x32 => 0x00230000 case 0x33 => 0x00c30000 case 0x34 => 0x00180000 case 0x35 => 0x00960000 case 0x36 => 0x00050000 case 0x37 => 0x009a0000
      case 0x38 => 0x00070000 case 0x39 => 0x00120000 case 0x3a => 0x00800000 case 0x3b => 0x00e20000 case 0x3c => 0x00eb0000 case 0x3d => 0x00270000 case 0x3e => 0x00b20000 case _ => 0x00750000
    } else if x < 0x50 then match x {
      case 0x40 => 0x00090000 case 0x41 => 0x00830000 case 0x42 => 0x002c0000 case 0x43 => 0x001a0000 case 0x44 => 0x001b0000 case 0x45 => 0x006e0000 case 0x46 => 0x005a0000 case 0x47 => 0x00a00000
      case 0x48 => 0x00520000 case 0x49 => 0x003b0000 case 0x4a => 0x00d60000 case 0x4b => 0x00b30000 case 0x4c => 0x00290000 case 0x4d => 0x00e30000 case 0x4e => 0x002f0000 case _ => 0x00840000
    } else if x < 0x60 then match x {
      case 0x50 => 0x00530000 case 0x51 => 0x00d10000 case 0x52 => 0x00000000 case 0x53 => 0x00ed0000 case 0x54 => 0x00200000 case 0x55 => 0x00fc0000 case 0x56 => 0x00b10000 case 0x57 => 0x005b0000
      case 0x58 => 0x006a0000 case 0x59 => 0x00cb0000 case 0x5a => 0x00be0000 case 0x5b => 0x00390000 case 0x5c => 0x004a0000 case 0x5d => 0x004c0000 case 0x5e => 0x00580000 case _ => 0x00cf0000
    } else if x < 0x70 then match x {
      case 0x60 => 0x00d00000 case 0x61 => 0x00ef0000 case 0x62 => 0x00aa0000 case 0x63 => 0x00fb0000 case 0x64 => 0x00430000 case 0x65 => 0x004d0000 case 0x66 => 0x00330000 case 0x67 => 0x00850000
      case 0x68 => 0x00450000 case 0x69 => 0x00f90000 case 0x6a => 0x00020000 case 0x6b => 0x007f0000 case 0x6c => 0x00500000 case 0x6d => 0x003c0000 case 0x6e => 0x009f0000 case _ => 0x00a80000
    } else if x < 0x80 then match x {
      case 0x70 => 0x00510000 case 0x71 => 0x00a30000 case 0x72 => 0x00400000 case 0x73 => 0x008f0000 case 0x74 => 0x00920000 case 0x75 => 0x009d0000 case 0x76 => 0x00380000 case 0x77 => 0x00f50000
      case 0x78 => 0x00bc0000 case 0x79 => 0x00b60000 case 0x7a => 0x00da0000 case 0x7b => 0x00210000 case 0x7c => 0x00100000 case 0x7d => 0x00ff0000 case 0x7e => 0x00f30000 case _ => 0x00d20000
    } else if x < 0x90 then match x {
      case 0x80 => 0x00cd0000 case 0x81 => 0x000c0000 case 0x82 => 0x00130000 case 0x83 => 0x00ec0000 case 0x84 => 0x005f0000 case 0x85 => 0x00970000 case 0x86 => 0x00440000 case 0x87 => 0x00170000
      case 0x88 => 0x00c40000 case 0x89 => 0x00a70000 case 0x8a => 0x007e0000 case 0x8b => 0x003d0000 case 0x8c => 0x00640000 case 0x8d => 0x005d0000 case 0x8e => 0x00190000 case _ => 0x00730000
    } else if x < 0xa0 then match x {
      case 0x90 => 0x00600000 case 0x91 => 0x00810000 case 0x92 => 0x004f0000 case 0x93 => 0x00dc0000 case 0x94 => 0x00220000 case 0x95 => 0x002a0000 case 0x96 => 0x00900000 case 0x97 => 0x00880000
      case 0x98 => 0x00460000 case 0x99 => 0x00ee0000 case 0x9a => 0x00b80000 case 0x9b => 0x00140000 case 0x9c => 0x00de0000 case 0x9d => 0x005e0000 case 0x9e => 0x000b0000 case _ => 0x00db0000
    } else if x < 0xb0 then match x {
      case 0xa0 => 0x00e00000 case 0xa1 => 0x00320000 case 0xa2 => 0x003a0000 case 0xa3 => 0x000a0000 case 0xa4 => 0x00490000 case 0xa5 => 0x00060000 case 0xa6 => 0x00240000 case 0xa7 => 0x005c0000
      case 0xa8 => 0x00c20000 case 0xa9 => 0x00d30000 case 0xaa => 0x00ac0000 case 0xab => 0x00620000 case 0xac => 0x00910000 case 0xad => 0x00950000 case 0xae => 0x00e40000 case _ => 0x00790000
    } else if x < 0xc0 then match x {
      case 0xb0 => 0x00e70000 case 0xb1 => 0x00c80000 case 0xb2 => 0x00370000 case 0xb3 => 0x006d0000 case 0xb4 => 0x008d0000 case 0xb5 => 0x00d50000 case 0xb6 => 0x004e0000 case 0xb7 => 0x00a90000
      case 0xb8 => 0x006c0000 case 0xb9 => 0x00560000 case 0xba => 0x00f40000 case 0xbb => 0x00ea0000 case 0xbc => 0x00650000 case 0xbd => 0x007a0000 case 0xbe => 0x00ae0000 case _ => 0x00080000
    } else if x < 0xd0 then match x {
      case 0xc0 => 0x00ba0000 case 0xc1 => 0x00780000 case 0xc2 => 0x00250000 case 0xc3 => 0x002e0000 case 0xc4 => 0x001c0000 case 0xc5 => 0x00a60000 case 0xc6 => 0x00b40000 case 0xc7 => 0x00c60000
      case 0xc8 => 0x00e80000 case 0xc9 => 0x00dd0000 case 0xca => 0x00740000 case 0xcb => 0x001f0000 case 0xcc => 0x004b0000 case 0xcd => 0x00bd0000 case 0xce => 0x008b0000 case _ => 0x008a0000
    } else if x < 0xe0 then match x {
      case 0xd0 => 0x00700000 case 0xd1 => 0x003e0000 case 0xd2 => 0x00b50000 case 0xd3 => 0x00660000 case 0xd4 => 0x00480000 case 0xd5 => 0x00030000 case 0xd6 => 0x00f60000 case 0xd7 => 0x000e0000
      case 0xd8 => 0x00610000 case 0xd9 => 0x00350000 case 0xda => 0x00570000 case 0xdb => 0x00b90000 case 0xdc => 0x00860000 case 0xdd => 0x00c10000 case 0xde => 0x001d0000 case _ => 0x009e0000
    } else if x < 0xf0 then match x {
      case 0xe0 => 0x00e10000 case 0xe1 => 0x00f80000 case 0xe2 => 0x00980000 case 0xe3 => 0x00110000 case 0xe4 => 0x00690000 case 0xe5 => 0x00d90000 case 0xe6 => 0x008e0000 case 0xe7 => 0x00940000
      case 0xe8 => 0x009b0000 case 0xe9 => 0x001e0000 case 0xea => 0x00870000 case 0xeb => 0x00e90000 case 0xec => 0x00ce0000 case 0xed => 0x00550000 case 0xee => 0x00280000 case _ => 0x00df0000
    } else match x {
      case 0xf0 => 0x008c0000 case 0xf1 => 0x00a10000 case 0xf2 => 0x00890000 case 0xf3 => 0x000d0000 case 0xf4 => 0x00bf0000 case 0xf5 => 0x00e60000 case 0xf6 => 0x00420000 case 0xf7 => 0x00680000
      case 0xf8 => 0x00410000 case 0xf9 => 0x00990000 case 0xfa => 0x002d0000 case 0xfb => 0x000f0000 case 0xfc => 0x00b00000 case 0xfd => 0x00540000 case 0xfe => 0x00bb0000 case _ => 0x00160000
    }
  }

  // crypto_fl_tab[3]
  function Fl3(x: int): bv32
  {
    if x < 0x10 then match x {
      case 0x00 => 0x63000000 case 0x01 => 0x7c000000 case 0x02 => 0x77000000 case 0x03 => 0x7b000000 case 0x04 => 0xf2000000 case 0x05 => 0x6b000000 case 0x06 => 0x6f000000 case 0x07 => 0xc5000000
      case 0x08 => 0x30000000 case 0x09 => 0x01000000 case 0x0a => 0x67000000 case 0x0b => 0x2b000000 case 0x0c => 0xfe000000 case 0x0d => 0xd7000000 case 0x0e => 0xab000000 case _ => 0x76000000
    } else if x < 0x20 then match x {
      case 0x10 => 0xca000000 case 0x11 => 0x82000000 case 0x12 => 0xc9000000 case 0x13 => 0x7d000000 case 0x14 => 0xfa000000 case 0x15 => 0x59000000 case 0x16 => 0x47000000 case 0x17 => 0xf0000000
      case 0x18 => 0xad000000 case 0x19 => 0xd4000000 case 0x1a => 0xa2000000 case 0x1b => 0xaf000000 case 0x1c => 0x9c000000 case 0x1d => 0xa4000000 case 0x1e => 0x72000000 case _ => 0xc0000000
    } else if x < 0x30 then match x {
      case 0x20 => 0xb7000000 case 0x21 => 0xfd000000 case 0x22 => 0x93000000 case 0x23 => 0x26000000 case 0x24 => 0x36000000 case 0x25 => 0x3f000000 case 0x26 => 0xf7000000 case 0x27 => 0xcc000000
      case 0x28 => 0x34000000 case 0x29 => 0xa5000000 case 0x2a => 0xe5000000 case 0x2b => 0xf1000000 case 0x2c => 0x71000000 case 0x2d => 0xd8000000 case 0x2e => 0x31000000 case _ => 0x15000000
    } else if x < 0x40 then match x {
      case 0x30 => 0x04000000 case 0x31 => 0xc7000000 case 0x32 => 0x23000000 case 0x33 => 0xc3000000 case 0x34 => 0x18000000 case 0x35 => 0x96000000 case 0x36 => 0x05000000 case 0x37 => 0x9a000000
      case 0x38 => 0x07000000 case 0x39 => 0x12000000 case 0x3a => 0x80000000 case 0x3b => 0xe2000000 case 0x3c => 0xeb000000 case 0x3d => 0x27000000 case 0x3e => 0xb2000000 case _ => 0x75000000
    } else if x < 0x50 then match x {
      case 0x40 => 0x09000000 case 0x41 => 0x83000000 case 0x42 => 0x2c000000 case 0x43 => 0x1a000000 case 0x44 => 0x1b000000 case 0x45 => 0x6e000000 case 0x46 => 0x5a000000 case 0x47 => 0xa0000000
      case 0x48 => 0x52000000 case 0x49 => 0x3b000000 case 0x4a => 0xd6000000 case 0x4b => 0xb3000000 case 0x4c => 0x29000000 case 0x4d => 0xe3000000 case 0x4e => 0x2f000000 case _ => 0x84000000
    } else if x < 0x60 then match x {
      case 0x50 => 0x53000000 case 0x51 => 0xd1000000 case 0x52 => 0x00000000 case 0x53 => 0xed000000 case 0x54 => 0x20000000 case 0x55 => 0xfc000000 case 0x56 => 0xb1000000 case 0x57 => 0x5b000000
      case 0x58 => 0x6a000000 case 0x59 => 0xcb000000 case 0x5a => 0xbe000000 case 0x5b => 0x39000000 case 0x5c => 0x4a000000 case 0x5d => 0x4c000000 case 0x5e => 0x58000000 case _ => 0xcf000000
    } else if x < 0x70 then match x {
      case 0x60 => 0xd0000000 case 0x61 => 0xef000000 case 0x62 => 0xaa000000 case 0x63 => 0xfb000000 case 0x64 => 0x43000000 case 0x65 => 0x4d000000 case 0x66 => 0x33000000 case 0x67 => 0x85000000
      case 0x68 => 0x45000000 case 0x69 => 0xf9000000 case 0x6a => 0x02000000 case 0x6b => 0x7f000000 case 0x6c => 0x50000000 case 0x6d => 0x3c000000 case 0x6e => 0x9f000000 case _ => 0xa8000000
    } else if x < 0x80 then match x {
      case 0x70 => 0x51000000 case 0x71 => 0xa3000000 case 0x72 => 0x40000000 case 0x73 => 0x8f000000 case 0x74 => 0x92000000 case 0x75 => 0x9d000000 case 0x76 => 0x38000000 case 0x77 => 0xf5000000
      case 0x78 => 0xbc000000 case 0x79 => 0xb6000000 case 0x7a => 0xda000000 case 0x7b => 0x21000000 case 0x7c => 0x10000000 case 0x7d => 0xff000000 case 0x7e => 0xf3000000 case _ => 0xd2000000
    } else if x < 0x90 then match x {
      case 0x80 => 0xcd000000 case 0x81 => 0x0c000000 case 0x82 => 0x13000000 case 0x83 => 0xec000000 case 0x84 => 0x5f000000 case 0x85 => 0x97000000 case 0x86 => 0x44000000 case 0x87 => 0x17000000
      case 0x88 => 0xc4000000 case 0x89 => 0xa7000000 case 0x8a => 0x7e000000 case 0x8b => 0x3d000000 case 0x8c => 0x64000000 case 0x8d => 0x5d000000 case 0x8e => 0x19000000 case _ => 0x73000000
    } else if x < 0xa0 then match x {
      case 0x90 => 0x60000000 case 0x91 => 0x81000000 case 0x92 => 0x4f000000 case 0x93 => 0xdc000000 case 0x94 => 0x22000000 case 0x95 => 0x2a000000 case 0x96 => 0x90000000 case 0x97 => 0x88000000
      case 0x98 => 0x46000000 case 0x99 => 0xee000000 case 0x9a => 0xb8000000 case 0x9b => 0x14000000 case 0x9c => 0xde000000 case 0x9d => 0x5e000000 case 0x9e => 0x0b000000 case _ => 0xdb000000
    } else if x < 0xb0 then match x {
      case 0xa0 => 0xe0000000 case 0xa1 => 0x32000000 case 0xa2 => 0x3a000000 case 0xa3 => 0x0a000000 case 0xa4 => 0x49000000 case 0xa5 => 0x06000000 case 0xa6 => 0x24000000 case 0xa7 => 0x5c000000
      case 0xa8 => 0xc2000000 case 0xa9 => 0xd3000000 case 0xaa => 0xac000000 case 0xab => 0x62000000 case 0xac => 0x91000000 case 0xad => 0x95000000 case 0xae => 0xe4000000 case _ => 0x79000000
    } else if x < 0xc0 then match x {
      case 0xb0 => 0xe7000000 case 0xb1 => 0xc8000000 case 0xb2 => 0x37000000 case 0xb3 => 0x6d000000 case 0xb4 => 0x8d000000 case 0xb5 => 0xd5000000 case 0xb6 => 0x4e000000 case 0xb7 => 0xa9000000
      case 0xb8 => 0x6c000000 case 0xb9 => 0x56000000 case 0xba => 0xf4000000 case 0xbb => 0xea000000 case 0xbc => 0x65000000 case 0xbd => 0x7a000000 case 0xbe => 0xae000000 case _ => 0x08000000
    } else if x < 0xd0 then match x {
      case 0xc0 => 0xba000000 case 0xc1 => 0x78000000 case 0xc2 => 0x25000000 case 0xc3 => 0x2e000000 case 0xc4 => 0x1c000000 case 0xc5 => 0xa6000000 case 0xc6 => 0xb4000000 case 0xc7 => 0xc6000000
      case 0xc8 => 0xe8000000 case 0xc9 => 0xdd000000 case 0xca => 0x74000000 case 0xcb => 0x1f000000 case 0xcc => 0x4b000000 case 0xcd => 0xbd000000 case 0xce => 0x8b000000 case _ => 0x8a000000
    } else if x < 0xe0 then match x {
      case 0xd0 => 0x70000000 case 0xd1 => 0x3e000000 case 0xd2 => 0xb5000000 case 0xd3 => 0x66000000 case 0xd4 => 0x48000000 case 0xd5 => 0x03000000 case 0xd6 => 0xf6000000 case 0xd7 => 0x0e000000
      case 0xd8 => 0x61000000 case 0xd9 => 0x35000000 case 0xda => 0x57000000 case 0xdb => 0xb9000000 case 0xdc => 0x86000000 case 0xdd => 0xc1000000 case 0xde => 0x1d000000 case _ => 0x9e000000
    } else if x < 0xf0 then match x {
      case 0xe0 => 0xe1000000 case 0xe1 => 0xf8000000 case 0xe2 => 0x98000000 case 0xe3 => 0x11000000 case 0xe4 => 0x69000000 case 0xe5 => 0xd9000000 case 0xe6 => 0x8e000000 case 0xe7 => 0x94000000
      case 0xe8 => 0x9b000000 case 0xe9 => 0x1e000000 case 0xea => 0x87000000 case 0xeb => 0xe9000000 case 0xec => 0xce000000 case 0xed => 0x55000000 case 0xee => 0x28000000 case _ => 0xdf000000
    } else match x {
      case 0xf0 => 0x8c000000 case 0xf1 => 0xa1000000 case 0xf2 => 0x89000000 case 0xf3 => 0x0d000000 case 0xf4 => 0xbf000000 case 0xf5 => 0xe6000000 case 0xf6 => 0x42000000 case 0xf7 => 0x68000000
      case 0xf8 => 0x41000000 case 0xf9 => 0x99000000 case 0xfa => 0x2d000000 case 0xfb => 0x0f000000 case 0xfc => 0xb0000000 case 0xfd => 0x54000000 case 0xfe => 0xbb000000 case _ => 0x16000000
    }
  }

  // The word whose little-endian bytes are a, b, c, d.
  function Word(a: bv8, b: bv8, c: bv8, d: bv8): bv32 {
    (a as bv32) | ((b as bv32) << 8) | ((c as bv32) << 16) | ((d as bv32) << 24)
  }

  // What section 5.1.1 requires of entry x of the S-box.
  predicate SBoxOk(x: nat)
    requires x < 256
  {
    var s := SBox(x);
    s == Affine(InvAffine(s)) && IsInverse(x as bv8, InvAffine(s))
  }

  // What sections 5.1.1 and 5.1.3 require of entry x of the eight tables.
  predicate EntryOk(x: nat)
  {
    var s := SBox(x);
    var t := XTime(s);
    && Ft0(x) == Word(t, s, s, Add(t, s)) && Ft1(x) == Word(Add(t, s), t, s, s)
    && Ft2(x) == Word(s, Add(t, s), t, s) && Ft3(x) == Word(s, s, Add(t, s), t)
    && Fl0(x) == Word(s, 0, 0, 0) && Fl1(x) == Word(0, s, 0, 0)
    && Fl2(x) == Word(0, 0, s, 0) && Fl3(x) == Word(0, 0, 0, s)
  }

  // Entries lo to hi - 1, spelled out so that they can be computed one by one.
  predicate Entries(lo: nat, hi: nat)
    decreases hi - lo
  {
    lo >= hi || (EntryOk(lo) && Entries(lo + 1, hi))
  }

  predicate SBoxEntries(lo: nat, hi: nat)
    requires hi <= 256
    decreases hi - lo
  {
    lo >= hi || (SBoxOk(lo) && SBoxEntries(lo + 1, hi))
  }

}

// The tables are computed entry by entry here, away from their definitions.
module AesTablesCorrect {
  import opened Fips197
  import opened AesTables

  lemma {:induction false} EntriesAt(lo: nat, hi: nat, x: nat)
    requires Entries(lo, hi) && lo <= x < hi
    ensures EntryOk(x)
    decreases hi - lo
  {
    hide EntryOk;
    if lo < x {
      EntriesAt(lo + 1, hi, x);
    }
  }

  lemma {:induction false} SBoxEntriesAt(lo: nat, hi: nat, x: nat)
    requires hi <= 256 && SBoxEntries(lo, hi) && lo <= x < hi
    ensures SBoxOk(x)
    decreases hi - lo
  {
    hide SBoxOk;
    if lo < x {
      SBoxEntriesAt(lo + 1, hi, x);
    }
  }

  // One lemma for each eight entries.
  lemma Octet00() ensures Entries(0x00, 0x08) {}
  lemma Octet01() ensures Entries(0x08, 0x10) {}
  lemma Octet02() ensures Entries(0x10, 0x18) {}
  lemma Octet03() ensures Entries(0x18, 0x20) {}
  lemma Octet04() ensures Entries(0x20, 0x28) {}
  lemma Octet05() ensures Entries(0x28, 0x30) {}
  lemma Octet06() ensures Entries(0x30, 0x38) {}
  lemma Octet07() ensures Entries(0x38, 0x40) {}
  lemma Octet08() ensures Entries(0x40, 0x48) {}
  lemma Octet09() ensures Entries(0x48, 0x50) {}
  lemma Octet0A() ensures Entries(0x50, 0x58) {}
  lemma Octet0B() ensures Entries(0x58, 0x60) {}
  lemma Octet0C() ensures Entries(0x60, 0x68) {}
  lemma Octet0D() ensures Entries(0x68, 0x70) {}
  lemma Octet0E() ensures Entries(0x70, 0x78) {}
  lemma Octet0F() ensures Entries(0x78, 0x80) {}
  lemma Octet10() ensures Entries(0x80, 0x88) {}
  lemma Octet11() ensures Entries(0x88, 0x90) {}
  lemma Octet12() ensures Entries(0x90, 0x98) {}
  lemma Octet13() ensures Entries(0x98, 0xa0) {}
  lemma Octet14() ensures Entries(0xa0, 0xa8) {}
  lemma Octet15() ensures Entries(0xa8, 0xb0) {}
  lemma Octet16() ensures Entries(0xb0, 0xb8) {}
  lemma Octet17() ensures Entries(0xb8, 0xc0) {}
  lemma Octet18() ensures Entries(0xc0, 0xc8) {}
  lemma Octet19() ensures Entries(0xc8, 0xd0) {}
  lemma Octet1A() ensures Entries(0xd0, 0xd8) {}
  lemma Octet1B() ensures Entries(0xd8, 0xe0) {}
  lemma Octet1C() ensures Entries(0xe0, 0xe8) {}
  lemma Octet1D() ensures Entries(0xe8, 0xf0) {}
  lemma Octet1E() ensures Entries(0xf0, 0xf8) {}
  lemma Octet1F() ensures Entries(0xf8, 0x100) {}

  lemma Octet(n: nat)
    requires n < 32
    ensures Entries(8 * n, 8 * n + 8)
  {
    hide EntryOk;
    match n {
      case 0 => Octet00(); case 1 => Octet01(); case 2 => Octet02(); case 3 => Octet03();
      case 4 => Octet04(); case 5 => Octet05(); case 6 => Octet06(); case 7 => Octet07();
      case 8 => Octet08(); case 9 => Octet09(); case 10 => Octet0A(); case 11 => Octet0B();
      case 12 => Octet0C(); case 13 => Octet0D(); case 14 => Octet0E(); case 15 => Octet0F();
      case 16 => Octet10(); case 17 => Octet11(); case 18 => Octet12(); case 19 => Octet13();
      case 20 => Octet14(); case 21 => Octet15(); case 22 => Octet16(); case 23 => Octet17();
      case 24 => Octet18(); case 25 => Octet19(); case 26 => Octet1A(); case 27 => Octet1B();
      case 28 => Octet1C(); case 29 => Octet1D(); case 30 => Octet1E(); case _ => Octet1F();
    }
  }

  // Every entry of the eight tables is an S-box byte times the MixColumns coefficients.
  lemma TablesCorrect(x: nat)
    requires x < 256
    ensures EntryOk(x)
  {
    hide EntryOk;
    Octet(x / 8);
    EntriesAt(8 * (x / 8), 8 * (x / 8) + 8, x);
  }

  lemma SBoxOctet00() ensures SBoxEntries(0x00, 0x08) {}
  lemma SBoxOctet01() ensures SBoxEntries(0x08, 0x10) {}
  lemma SBoxOctet02() ensures SBoxEntries(0x10, 0x18) {}
  lemma SBoxOctet03() ensures SBoxEntries(0x18, 0x20) {}
  lemma SBoxOctet04() ensures SBoxEntries(0x20, 0x28) {}
  lemma SBoxOctet05() ensures SBoxEntries(0x28, 0x30) {}
  lemma SBoxOctet06() ensures SBoxEntries(0x30, 0x38) {}
  lemma SBoxOctet07() ensures SBoxEntries(0x38, 0x40) {}
  lemma SBoxOctet08() ensures SBoxEntries(0x40, 0x48) {}
  lemma SBoxOctet09() ensures SBoxEntries(0x48, 0x50) {}
  lemma SBoxOctet0A() ensures SBoxEntries(0x50, 0x58) {}
  lemma SBoxOctet0B() ensures SBoxEntries(0x58, 0x60) {}
  lemma SBoxOctet0C() ensures SBoxEntries(0x60, 0x68) {}
  lemma SBoxOctet0D() ensures SBoxEntries(0x68, 0x70) {}
  lemma SBoxOctet0E() ensures SBoxEntries(0x70, 0x78) {}
  lemma SBoxOctet0F() ensures SBoxEntries(0x78, 0x80) {}
  lemma SBoxOctet10() ensures SBoxEntries(0x80, 0x88) {}
  lemma SBoxOctet11() ensures SBoxEntries(0x88, 0x90) {}
  lemma SBoxOctet12() ensures SBoxEntries(0x90, 0x98) {}
  lemma SBoxOctet13() ensures SBoxEntries(0x98, 0xa0) {}
  lemma SBoxOctet14() ensures SBoxEntries(0xa0, 0xa8) {}
  lemma SBoxOctet15() ensures SBoxEntries(0xa8, 0xb0) {}
  lemma SBoxOctet16() ensures SBoxEntries(0xb0, 0xb8) {}
  lemma SBoxOctet17() ensures SBoxEntries(0xb8, 0xc0) {}
  lemma SBoxOctet18() ensures SBoxEntries(0xc0, 0xc8) {}
  lemma SBoxOctet19() ensures SBoxEntries(0xc8, 0xd0) {}
  lemma SBoxOctet1A() ensures SBoxEntries(0xd0, 0xd8) {}
  lemma SBoxOctet1B() ensures SBoxEntries(0xd8, 0xe0) {}
  lemma SBoxOctet1C() ensures SBoxEntries(0xe0, 0xe8) {}
  lemma SBoxOctet1D() ensures SBoxEntries(0xe8, 0xf0) {}
  lemma SBoxOctet1E() ensures SBoxEntries(0xf0, 0xf8) {}
  lemma SBoxOctet1F() ensures SBoxEntries(0xf8, 0x100) {}

  lemma SBoxOctet(n: nat)
    requires n < 32
    ensures SBoxEntries(8 * n, 8 * n + 8)
  {
    hide SBoxOk;
    match n {
      case 0 => SBoxOctet00(); case 1 => SBoxOctet01(); case 2 => SBoxOctet02(); case 3 => SBoxOctet03();
      case 4 => SBoxOctet04(); case 5 => SBoxOctet05(); case 6 => SBoxOctet06(); case 7 => SBoxOctet07();
      case 8 => SBoxOctet08(); case 9 => SBoxOctet09(); case 10 => SBoxOctet0A(); case 11 => SBoxOctet0B();
      case 12 => SBoxOctet0C(); case 13 => SBoxOctet0D(); case 14 => SBoxOctet0E(); case 15 => SBoxOctet0F();
      case 16 => SBoxOctet10(); case 17 => SBoxOctet11(); case 18 => SBoxOctet12(); case 19 => SBoxOctet13();
      case 20 => SBoxOctet14(); case 21 => SBoxOctet15(); case 22 => SBoxOctet16(); case 23 => SBoxOctet17();
      case 24 => SBoxOctet18(); case 25 => SBoxOctet19(); case 26 => SBoxOctet1A(); case 27 => SBoxOctet1B();
      case 28 => SBoxOctet1C(); case 29 => SBoxOctet1D(); case 30 => SBoxOctet1E(); case _ => SBoxOctet1F();
    }
  }

  lemma SBoxCorrect(x: nat)
    requires x < 256
    ensures SBoxOk(x)
  {
    hide SBoxOk;
    SBoxOctet(x / 8);
    SBoxEntriesAt(8 * (x / 8), 8 * (x / 8) + 8, x);
  }

  // Section 5.1.1: the S-box is the affine transformation of the inverse in GF(2^8).
  lemma SBoxIsAffineOfInverse(x: bv8)
    ensures exists y: bv8 :: IsInverse(x, y) && SubByte(x) == Affine(y)
  {
    SBoxCorrect(x as int);
    assert (x as int) as bv8 == x;
    assert IsInverse(x, InvAffine(SubByte(x)));
  }
}
